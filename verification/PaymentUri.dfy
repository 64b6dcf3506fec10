/**
 The payment URI of BIP 21 at the level of its key/value items (parseBitcoinURI and formatBitcoinURI in
 hub-qt/guiutil.cpp).  Splitting the URI into items and percent-encoding are left to the URL library.
 */
module PaymentUri {
  import opened Decimals
  import opened BitcoinUnits
  import opened Options

  datatype Item = Item(key: string, value: string)

  /** `caption` is the label of the URI. */
  datatype Recipient = Recipient(address: string, caption: string, message: string, amount: int)

  predicate Required(key: string) { "req-" <= key }

  /** The key without its "req-" prefix. */
  function Plain(key: string): string { if Required(key) then key[4..] else key }

  predicate Known(key: string) { Plain(key) == "label" || Plain(key) == "message" || Plain(key) == "amount" }

  predicate EndsWithSlash(s: string) { s != "" && s[|s| - 1] == '/' }

  function TrimSlash(s: string): string { if EndsWithSlash(s) then s[..|s| - 1] else s }

  /** The effect of one item; None rejects the URI. */
  function ReadItem(rv: Recipient, item: Item): Option<Recipient> {
    if Plain(item.key) == "label" then Some(rv.(caption := item.value))
    else if Plain(item.key) == "message" then Some(rv.(message := item.value))
    else if Plain(item.key) == "amount" then
      if item.value == "" then Some(rv)
      else match Parse(BTC, item.value)
        case Some(v) => Some(rv.(amount := v))
        case None => None
    else if Required(item.key) then None
    else Some(rv)
  }

  function ReadItems(rv: Recipient, items: seq<Item>): Option<Recipient>
    decreases items
  {
    if items == [] then Some(rv)
    else match ReadItem(rv, items[0])
      case Some(next) => ReadItems(next, items[1..])
      case None => None
  }

  /** parseBitcoinURI for a URI with the right scheme. */
  function ReadUri(path: string, items: seq<Item>): Option<Recipient> {
    ReadItems(Recipient(TrimSlash(path), "", "", 0), items)
  }

  /** The items formatBitcoinURI appends. */
  function FormatItems(info: Recipient): seq<Item> {
    (if info.amount != 0 then [Item("amount", Format(BTC, info.amount, false, SeparatorNever))] else [])
    + (if info.caption != "" then [Item("label", info.caption)] else [])
    + (if info.message != "" then [Item("message", info.message)] else [])
  }

  /** The loop over the items, with the flag that rejects an unknown required item. */
  method ParseUri(path: string, items: seq<Item>) returns (result: Option<Recipient>)
    ensures result == ReadUri(path, items)
  {
    var address := path;
    if EndsWithSlash(address) { address := address[..|address| - 1]; }
    var rv := Recipient(address, "", "", 0);
    for i := 0 to |items|
      invariant ReadItems(rv, items[i..]) == ReadUri(path, items)
    {
      assert items[i..][0] == items[i] && items[i..][1..] == items[i + 1..];
      var key := items[i].key;
      var shouldReturnFalse := false;
      if "req-" <= key {
        key := key[4..];
        shouldReturnFalse := true;
      }
      if key == "label" {
        rv := rv.(caption := items[i].value);
        shouldReturnFalse := false;
      }
      if key == "message" {
        rv := rv.(message := items[i].value);
        shouldReturnFalse := false;
      } else if key == "amount" {
        if items[i].value != "" {
          var parsed := Parse(BTC, items[i].value);
          if parsed.None? { return None; }
          rv := rv.(amount := parsed.value);
        }
        shouldReturnFalse := false;
      }
      if shouldReturnFalse { return None; }
    }
    assert items[|items|..] == [];
    result := Some(rv);
  }

  // ---------------------------------------------------------------- what a list of items means

  /** Items that make the URI invalid: an unknown required item, or an amount that does not parse. */
  predicate Rejected(item: Item) {
    || (Required(item.key) && !Known(item.key))
    || (Plain(item.key) == "amount" && item.value != "" && Parse(BTC, item.value).None?)
  }

  /** The value of the last item with this plain key, empty ones skipped where `skipEmpty` says so. */
  function LastValue(items: seq<Item>, key: string, skipEmpty: bool): Option<string>
    decreases items
  {
    if items == [] then None
    else
      var later := LastValue(items[1..], key, skipEmpty);
      if later.Some? then later
      else if Plain(items[0].key) == key && !(skipEmpty && items[0].value == "") then Some(items[0].value)
      else None
  }

  function Or(o: Option<string>, default: string): string { if o.Some? then o.value else default }

  function AmountOr(o: Option<string>, default: int): int {
    if o.Some? && Parse(BTC, o.value).Some? then Parse(BTC, o.value).value else default
  }

  function Meaning(rv: Recipient, items: seq<Item>): Recipient {
    Recipient(rv.address, Or(LastValue(items, "label", false), rv.caption),
              Or(LastValue(items, "message", false), rv.message),
              AmountOr(LastValue(items, "amount", true), rv.amount))
  }

  /** The amount items that are not empty parse. */
  lemma {:induction false} LastAmountParses(items: seq<Item>)
    requires forall i :: 0 <= i < |items| ==> !Rejected(items[i])
    ensures LastValue(items, "amount", true).Some? ==> Parse(BTC, LastValue(items, "amount", true).value).Some?
  {
    if items != [] { LastAmountParses(items[1..]); }
  }

  /** Items are rejected exactly when one of them is, and otherwise each field is the last value given for it. */
  lemma {:induction false} ItemsMeanTheirLastValues(rv: Recipient, items: seq<Item>)
    ensures ReadItems(rv, items) ==
            if exists i :: 0 <= i < |items| && Rejected(items[i]) then None else Some(Meaning(rv, items))
    decreases items
  {
    if items != [] {
      var rest := items[1..];
      assert forall i :: 0 <= i < |rest| ==> rest[i] == items[i + 1];
      if Rejected(items[0]) {
        assert ReadItem(rv, items[0]).None?;
      } else {
        var next := ReadItem(rv, items[0]).value;
        ItemsMeanTheirLastValues(next, rest);
        if exists i :: 0 <= i < |items| && Rejected(items[i]) {
          var i :| 0 <= i < |items| && Rejected(items[i]);
          assert Rejected(rest[i - 1]);
        } else {
          forall i | 0 <= i < |rest| ensures !Rejected(rest[i]) { assert !Rejected(items[i + 1]); }
          LastAmountParses(rest);
        }
      }
    }
  }

  /** Any unknown required item rejects, wherever it stands. */
  lemma {:induction false} UnknownRequiredRejects(path: string, items: seq<Item>, i: nat, name: string)
    requires i < |items| && items[i].key == "req-" + name && name != "label" && name != "message" && name != "amount"
    ensures ReadUri(path, items).None?
  {
    assert items[i].key[4..] == name;
    ItemsMeanTheirLastValues(Recipient(TrimSlash(path), "", "", 0), items);
    assert Rejected(items[i]);
  }

  lemma {:induction false} ReadItemsConcat(rv: Recipient, a: seq<Item>, b: seq<Item>)
    ensures ReadItems(rv, a + b) == if ReadItems(rv, a).Some? then ReadItems(ReadItems(rv, a).value, b) else None
    decreases a
  {
    if a == [] {
      assert a + b == b;
    } else {
      assert (a + b)[1..] == a[1..] + b;
      var o := ReadItem(rv, a[0]);
      if o.Some? { ReadItemsConcat(o.value, a[1..], b); }
    }
  }

  /** Unknown optional items change nothing, wherever they stand. */
  lemma {:induction false} UnknownOptionalIsIgnored(rv: Recipient, a: seq<Item>, x: Item, b: seq<Item>)
    requires x.key != "label" && x.key != "message" && x.key != "amount" && !("req-" <= x.key)
    ensures ReadItems(rv, a + [x] + b) == ReadItems(rv, a + b)
  {
    assert a + [x] + b == a + ([x] + b);
    ReadItemsConcat(rv, a, [x] + b);
    ReadItemsConcat(rv, a, b);
    assert ([x] + b)[1..] == b;
  }

  /** The prefix that marks an item as required makes no difference for a known one. */
  lemma {:induction false} RequiredKnownIsRead(rv: Recipient, a: seq<Item>, name: string, value: string, b: seq<Item>)
    requires name == "label" || name == "message" || name == "amount"
    ensures ReadItems(rv, a + [Item("req-" + name, value)] + b) == ReadItems(rv, a + [Item(name, value)] + b)
  {
    var x, y := Item("req-" + name, value), Item(name, value);
    assert x.key[4..] == name;
    ReadItemsConcat(rv, a + [x], b);
    ReadItemsConcat(rv, a + [y], b);
    ReadItemsConcat(rv, a, [x]);
    ReadItemsConcat(rv, a, [y]);
    assert [x][1..] == [] && [y][1..] == [];
    PlainNames(name);
  }

  lemma {:induction false} PlainNames(name: string)
    requires name == "label" || name == "message" || name == "amount"
    ensures Plain("req-" + name) == Plain(name) == name
  {
    assert ("req-" + name)[4..] == name;
    assert "req-"[0] == 'r' && name[0] != 'r';
  }

  /** One slash at the end of the path is ignored. */
  lemma {:induction false} SlashIsIgnored(path: string, items: seq<Item>)
    requires path == "" || path[|path| - 1] != '/'
    ensures ReadUri(path + "/", items) == ReadUri(path, items)
    ensures ReadUri(path, []) == Some(Recipient(path, "", "", 0))
  {
    assert (path + "/")[..|path|] == path;
  }

  // ---------------------------------------------------------------- order

  /** No two items set the same field. */
  ghost predicate DistinctKeys(items: seq<Item>) {
    forall i, j ::
      0 <= i < j < |items| && Known(items[i].key) && Known(items[j].key) ==> Plain(items[i].key) != Plain(items[j].key)
  }

  lemma {:induction false} LastValueIsAnItem(items: seq<Item>, key: string, skipEmpty: bool)
    ensures var v := LastValue(items, key, skipEmpty);
            && (v.Some? ==>
                exists i :: 0 <= i < |items| && Plain(items[i].key) == key && items[i].value == v.value
                            && !(skipEmpty && v.value == ""))
            && (v.None? ==>
                forall i :: 0 <= i < |items| && Plain(items[i].key) == key ==> skipEmpty && items[i].value == "")
  {
    if items != [] {
      var rest := items[1..];
      LastValueIsAnItem(rest, key, skipEmpty);
      assert forall i :: 1 <= i < |items| ==> items[i] == rest[i - 1];
      var v := LastValue(items, key, skipEmpty);
      if LastValue(rest, key, skipEmpty).Some? {
        var i :| 0 <= i < |rest| && Plain(rest[i].key) == key && rest[i].value == v.value;
        assert Plain(items[i + 1].key) == key && items[i + 1].value == v.value;
      }
    }
  }

  lemma {:induction false} OneItemPerKey(items: seq<Item>, x: Item, y: Item)
    requires DistinctKeys(items) && x in items && y in items && Known(x.key) && Plain(x.key) == Plain(y.key)
    ensures x == y
  {
    var i :| 0 <= i < |items| && items[i] == x;
    var j :| 0 <= j < |items| && items[j] == y;
  }

  /** A last value of `b` is also the last value of `a`. */
  lemma {:induction false} LastValueCarries(a: seq<Item>, b: seq<Item>, key: string, skipEmpty: bool)
    requires (forall x :: x in a <==> x in b) && (DistinctKeys(a) || DistinctKeys(b))
             && (key == "label" || key == "message" || key == "amount")
    ensures LastValue(b, key, skipEmpty).Some? ==> LastValue(a, key, skipEmpty) == LastValue(b, key, skipEmpty)
  {
    LastValueIsAnItem(a, key, skipEmpty);
    LastValueIsAnItem(b, key, skipEmpty);
    var va, vb := LastValue(a, key, skipEmpty), LastValue(b, key, skipEmpty);
    if vb.Some? {
      var j :| 0 <= j < |b| && Plain(b[j].key) == key && b[j].value == vb.value && !(skipEmpty && vb.value == "");
      var y := b[j];
      assert y in a;
      var k :| 0 <= k < |a| && a[k] == y;
      assert va.Some?;
      var i :| 0 <= i < |a| && Plain(a[i].key) == key && a[i].value == va.value;
      var x := a[i];
      assert x in a && x in b;
      if DistinctKeys(a) { OneItemPerKey(a, x, y); } else { OneItemPerKey(b, x, y); }
    }
  }

  lemma {:induction false} SameItemsSameLastValue(a: seq<Item>, b: seq<Item>, key: string, skipEmpty: bool)
    requires multiset(a) == multiset(b) && DistinctKeys(a) && (key == "label" || key == "message" || key == "amount")
    ensures LastValue(a, key, skipEmpty) == LastValue(b, key, skipEmpty)
  {
    forall x ensures x in a <==> x in b {
      assert x in a <==> x in multiset(a);
      assert x in b <==> x in multiset(b);
    }
    LastValueCarries(a, b, key, skipEmpty);
    LastValueCarries(b, a, key, skipEmpty);
  }

  /** When no two items set the same field, the order of the items does not matter. */
  lemma {:induction false} OrderDoesNotMatter(path: string, a: seq<Item>, b: seq<Item>)
    requires multiset(a) == multiset(b) && DistinctKeys(a)
    ensures ReadUri(path, a) == ReadUri(path, b)
  {
    var rv := Recipient(TrimSlash(path), "", "", 0);
    ItemsMeanTheirLastValues(rv, a);
    ItemsMeanTheirLastValues(rv, b);
    SameItemsSameLastValue(a, b, "label", false);
    SameItemsSameLastValue(a, b, "message", false);
    SameItemsSameLastValue(a, b, "amount", true);
    RejectionIsShared(a, b);
    RejectionIsShared(b, a);
  }

  lemma {:induction false} RejectionIsShared(a: seq<Item>, b: seq<Item>)
    requires multiset(a) == multiset(b)
    ensures (exists i :: 0 <= i < |a| && Rejected(a[i])) ==> exists i :: 0 <= i < |b| && Rejected(b[i])
  {
    if i :| 0 <= i < |a| && Rejected(a[i]) {
      assert a[i] in multiset(a) && a[i] in multiset(b) && a[i] in b;
    }
  }

  // ---------------------------------------------------------------- round trip

  /** Whether the printed amount can be parsed again. */
  predicate AmountFits(amount: int) { amount < Pow10(18) && -amount < Pow10(17) }

  lemma {:induction false} AmountItem(amount: int)
    requires amount != 0
    ensures Format(BTC, amount, false, SeparatorNever) != ""
    ensures Parse(BTC, Format(BTC, amount, false, SeparatorNever)) == if AmountFits(amount) then Some(amount) else None
  {
    RoundTrip(BTC, amount, false, SeparatorNever);
    PowMonotone(17, 18);
  }

  /** Reading the items of a printed URI gives back the recipient exactly when its amount fits the amount parser and its
      address does not end in a slash; a larger amount makes the URI unreadable. */
  lemma {:induction false} UriRoundTrip(info: Recipient)
    ensures ReadUri(info.address, FormatItems(info)) == Some(info) <==>
            AmountFits(info.amount) && !EndsWithSlash(info.address)
    ensures ReadUri(info.address, FormatItems(info)).None? <==> !AmountFits(info.amount)
  {
    var rv := Recipient(TrimSlash(info.address), "", "", 0);
    var amount: seq<Item> := if info.amount != 0 then [Item("amount", Format(BTC, info.amount, false, SeparatorNever))]
                             else [];
    var captions: seq<Item> := if info.caption != "" then [Item("label", info.caption)] else [];
    var message: seq<Item> := if info.message != "" then [Item("message", info.message)] else [];
    assert FormatItems(info) == amount + captions + message;
    ReadItemsConcat(rv, amount + captions, message);
    ReadItemsConcat(rv, amount, captions);
    PowPositive(18);
    PowPositive(17);
    FieldKeys();
    if info.amount != 0 {
      AmountItem(info.amount);
      ReadOne(rv, amount[0]);
    }
    if AmountFits(info.amount) {
      var rv1 := rv.(amount := info.amount);
      assert ReadItems(rv, amount) == Some(rv1);
      if info.caption != "" { ReadOne(rv1, captions[0]); }
      var rv2 := rv1.(caption := info.caption);
      if info.message != "" { ReadOne(rv2, message[0]); }
    }
  }

  lemma {:induction false} FieldKeys()
    ensures Plain("amount") == "amount" && Plain("label") == "label" && Plain("message") == "message"
  {
    assert "req-"[0] == 'r' && "amount"[0] == 'a' && "label"[0] == 'l' && "message"[0] == 'm';
  }

  lemma {:induction false} ReadOne(rv: Recipient, item: Item)
    ensures ReadItems(rv, [item]) == ReadItem(rv, item)
  {
    assert [item][1..] == [];
  }
}
