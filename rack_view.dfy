/** `RackView`: where the parts of a 48U rack are drawn. The front view
    places the management switches, power shelves, switch trays and compute
    trays by rack unit; the rear view shows the cable cartridges from 4 down
    to 1. The power-supply list of a shelf is sorted in place, pair by pair
    from the top. */
module RackView {
  import opened Wrappers
  import opened Text
  import opened Json
  import opened Seqs
  import ConfigurationView

  const RackHeight := 48
  const ForEachNotAFunction := "TypeError: forEach is not a function"
  const FindNotAFunction := "TypeError: cartridges.find is not a function"

  // ------------------------------------------------------- position to unit

  /** The `type` strings passed to `mapPositionToRU`. */
  datatype UnitType = PowerShelfType | ManagementSwitchType | ComputeTrayType | SwitchTrayType | OtherType(name: string)

  /** `mapPositionToRU`: the leading decimal integer of the position, 10
      units higher for compute and switch trays, and 0 when the position
      has no leading integer. */
  function MapPositionToRU(unitType: UnitType, pos: Value): (r: int)
    ensures ParseInt(StringForm(pos), false).None? ==> r == 0
    ensures ParseInt(StringForm(pos), false).Some? && (unitType.ComputeTrayType? || unitType.SwitchTrayType?) ==>
      r == ParseInt(StringForm(pos), false).value + 10
    ensures ParseInt(StringForm(pos), false).Some? && !unitType.ComputeTrayType? && !unitType.SwitchTrayType? ==>
      r == ParseInt(StringForm(pos), false).value
  {
    match ParseInt(StringForm(pos), false)
    case None => 0
    case Some(p) =>
      if unitType.PowerShelfType? || unitType.ManagementSwitchType? then p
      else if unitType.ComputeTrayType? || unitType.SwitchTrayType? then p + 10
      else p
  }

  /** A numeric position, or its decimal string with a suffix such as a
      unit letter, maps to that number (plus 10 for trays). */
  lemma NumericPosition(unitType: UnitType, n: int, suffix: string)
    requires suffix == [] || !('0' <= suffix[0] <= '9')
    ensures MapPositionToRU(unitType, Str(IntToString(n) + suffix)) ==
      (if unitType.ComputeTrayType? || unitType.SwitchTrayType? then n + 10 else n)
  {
    ParseIntOfDecimal(n, suffix, false);
    ParsedPosition(unitType, IntToString(n) + suffix, n);
  }

  lemma ParsedPosition(unitType: UnitType, s: string, n: int)
    requires ParseInt(s, false) == Some(n)
    ensures MapPositionToRU(unitType, Str(s)) ==
      (if unitType.ComputeTrayType? || unitType.SwitchTrayType? then n + 10 else n)
  {
    assert StringForm(Str(s)) == s;
  }

  /** A number and its decimal string are the same position. */
  lemma NumberPosition(unitType: UnitType, n: int)
    ensures MapPositionToRU(unitType, Num(n)) == MapPositionToRU(unitType, Str(IntToString(n)))
  {
    NumberForm(n);
    StringFormOfString(IntToString(n));
    SameFormSamePosition(unitType, Num(n), Str(IntToString(n)));
  }

  lemma NumberForm(n: int)
    ensures StringForm(Num(n)) == IntToString(n)
  {
  }

  lemma StringFormOfString(s: string)
    ensures StringForm(Str(s)) == s
  {
  }

  /** The position is read through its string form only. */
  lemma SameFormSamePosition(unitType: UnitType, a: Value, b: Value)
    requires StringForm(a) == StringForm(b)
    ensures MapPositionToRU(unitType, a) == MapPositionToRU(unitType, b)
  {
  }

  // ------------------------------------------------------------ front items

  /** The four front groups, in the order they are added. */
  datatype Kind = Mgmt | Power | SwitchTray | ComputeTray

  /** The name of the group's list in `DATA`. */
  function KindKey(kind: Kind): string {
    match kind
    case Mgmt => "Management_Switch"
    case Power => "Power_Shelf"
    case SwitchTray => "Switch_Tray"
    case ComputeTray => "Compute_Tray"
  }

  function KindType(kind: Kind): UnitType {
    match kind
    case Mgmt => ManagementSwitchType
    case Power => PowerShelfType
    case SwitchTray => SwitchTrayType
    case ComputeTray => ComputeTrayType
  }

  function Rank(kind: Kind): nat {
    match kind
    case Mgmt => 0
    case Power => 1
    case SwitchTray => 2
    case ComputeTray => 3
  }

  /** Power shelves take three units, everything else one. */
  function Height(kind: Kind): (r: nat)
    ensures r == (if kind == Power then 3 else 1)
  {
    if kind.Power? then 3 else 1
  }

  /** The shelf label: each test overrides the one before it. */
  function PowerLabel(u: int): (r: string)
    ensures u == 4 ==> r == "3U pwrshlf-01"
    ensures u == 7 ==> r == "3U pwrshlf-02"
    ensures u == 39 || u == 40 ==> r == "3U pwrshlf-03"
    ensures u == 42 || u == 43 ==> r == "3U pwrshlf-04"
    ensures u != 4 && u != 7 && u != 39 && u != 40 && u != 42 && u != 43 ==> r == "Power Shelf"
  {
    var l0 := "Power Shelf";
    var l1 := if u == 4 then "3U pwrshlf-01" else l0;
    var l2 := if u == 7 then "3U pwrshlf-02" else l1;
    var l3 := if u == 39 || u == 40 then "3U pwrshlf-03" else l2;
    if u == 42 || u == 43 then "3U pwrshlf-04" else l3
  }

  /** The label of an entry placed at unit `u`; the position is written as a
      template literal writes it. */
  function Caption(kind: Kind, item: Value, u: int): string {
    var pos := StringForm(Field(item, "POSITION"));
    match kind
    case Mgmt => "Mgmt Switch " + pos
    case Power => PowerLabel(u)
    case SwitchTray => "Switch Tray-" + pos
    case ComputeTray => "Compute Tray-" + pos
  }

  /** One `rackItems` record; the CSS colour is fixed by the kind. */
  datatype RackItem = RackItem(uHeight: nat, startU: int, caption: string, kind: Kind, details: Value)

  /** The check in `addItem`: only the start unit is tested. */
  predicate Fits(u: int) {
    1 <= u <= RackHeight
  }

  /** The record `addItem` would push for an entry of a group. */
  function Entry(kind: Kind, item: Value): (r: RackItem)
    ensures r.kind == kind && r.uHeight == Height(kind) && r.details == item
  {
    var u := MapPositionToRU(KindType(kind), Field(item, "POSITION"));
    RackItem(Height(kind), u, Caption(kind, item, u), kind, item)
  }

  /** `Entry` for one group, as a function value. */
  function EntryOf(kind: Kind): Value -> RackItem {
    (item: Value) => Entry(kind, item)
  }

  /** What one `forEach` call adds: the records of the entries in order,
      each only when its start unit is in the rack; a null entry throws on
      reading its position. `entry` is `EntryOf(kind)`, kept as a parameter
      so that the facts below do not depend on how positions are read. */
  function Placed(items: seq<Value>, entry: Value -> RackItem): (r: Result<seq<RackItem>, string>)
    ensures r.Err? <==> exists i :: 0 <= i < |items| && IsNullish(items[i])
  {
    if items == [] then Ok([])
    else
      var n := |items| - 1;
      var before := Placed(items[..n], entry);
      assert forall i :: 0 <= i < n ==> items[..n][i] == items[i];
      if before.Err? then before
      else if IsNullish(items[n]) then Err(ConfigurationView.NullAccess)
      else Ok(before.value + Placement(entry(items[n])))
  }

  /** The records of a list, one per element. */
  function Entries(items: seq<Value>, entry: Value -> RackItem): (r: seq<RackItem>)
    ensures |r| == |items|
    ensures forall k :: 0 <= k < |items| ==> r[k] == entry(items[k])
  {
    seq(|items|, i requires 0 <= i < |items| => entry(items[i]))
  }

  /** A group is its list's records, in list order, with those whose start
      unit is outside 1..48 dropped. */
  lemma {:induction false} PlacedIsFilter(items: seq<Value>, entry: Value -> RackItem)
    requires Placed(items, entry).Ok?
    ensures Placed(items, entry).value == Filter(Entries(items, entry), (e: RackItem) => Fits(e.startU))
  {
    if items != [] {
      var n := |items| - 1;
      var fits := (e: RackItem) => Fits(e.startU);
      var last := entry(items[n]);
      PlacedIsFilter(items[..n], entry);
      assert Placed(items, entry).value == Placed(items[..n], entry).value + Placement(last);
      assert Entries(items, entry) == Entries(items[..n], entry) + [last];
      FilterAppend(Entries(items[..n], entry), [last], fits);
      assert [last][1..] == [];
      assert Filter([last], fits) == Placement(last);
    }
  }

  /** Every record a group adds starts inside the rack and, when every
      entry's record has property `good`, has it too. */
  lemma {:induction false} PlacedRecords(items: seq<Value>, entry: Value -> RackItem, good: RackItem -> bool)
    requires Placed(items, entry).Ok?
    requires forall k :: 0 <= k < |items| ==> good(entry(items[k]))
    ensures forall e :: e in Placed(items, entry).value ==> Fits(e.startU) && good(e)
  {
    if items != [] {
      var n := |items| - 1;
      assert forall k :: 0 <= k < n ==> items[..n][k] == items[k];
      PlacedRecords(items[..n], entry, good);
    }
  }

  /** `if (d.key) d.key.forEach(...)`: nothing for a falsy list, and a
      `TypeError` for a truthy one that is not an array. */
  function Group(d: Value, kind: Kind): (r: Result<seq<RackItem>, string>)
    ensures !Truthy(Field(d, KindKey(kind))) ==> r == Ok([])
    ensures Truthy(Field(d, KindKey(kind))) && !Field(d, KindKey(kind)).Arr? ==> r == Err(ForEachNotAFunction)
    ensures Field(d, KindKey(kind)).Arr? ==> r == Placed(Field(d, KindKey(kind)).items, EntryOf(kind))
  {
    ListGroup(Field(d, KindKey(kind)), kind)
  }

  /** `Group` once the list has been read from `DATA`. */
  function ListGroup(list: Value, kind: Kind): (r: Result<seq<RackItem>, string>)
    ensures !Truthy(list) ==> r == Ok([])
    ensures Truthy(list) && !list.Arr? ==> r == Err(ForEachNotAFunction)
    ensures list.Arr? ==> r == Placed(list.items, EntryOf(kind))
  {
    if !Truthy(list) then Ok([])
    else if !list.Arr? then Err(ForEachNotAFunction)
    else Placed(list.items, EntryOf(kind))
  }

  /** `rackItems` after the four groups. */
  function FrontItems(d: Value): Result<seq<RackItem>, string> {
    var r0 := Group(d, Mgmt);
    var r1 := Then(r0, Group(d, Power));
    var r2 := Then(r1, Group(d, SwitchTray));
    Then(r2, Group(d, ComputeTray))
  }

  /** Every front record starts inside the rack, has the height of its
      kind, and the groups follow one another: management switches, power
      shelves, switch trays, compute trays. */
  lemma FrontLayout(d: Value)
    requires FrontItems(d).Ok?
    ensures forall e :: e in FrontItems(d).value ==> Fits(e.startU) && e.uHeight == Height(e.kind)
    ensures forall i, j :: 0 <= i < j < |FrontItems(d).value| ==>
      Rank(FrontItems(d).value[i].kind) <= Rank(FrontItems(d).value[j].kind)
  {
    var g0, g1, g2, g3 := Group(d, Mgmt), Group(d, Power), Group(d, SwitchTray), Group(d, ComputeTray);
    GroupRecords(d, Mgmt);
    GroupRecords(d, Power);
    GroupRecords(d, SwitchTray);
    GroupRecords(d, ComputeTray);
    var all := FrontItems(d).value;
    assert all == g0.value + g1.value + g2.value + g3.value;
    GroupsInRankOrder(g0.value, g1.value, g2.value, g3.value);
  }

  /** Records of the four kinds, listed group after group, are in rank
      order. */
  lemma GroupsInRankOrder(g0: seq<RackItem>, g1: seq<RackItem>, g2: seq<RackItem>, g3: seq<RackItem>)
    requires forall e :: e in g0 ==> e.kind == Mgmt
    requires forall e :: e in g1 ==> e.kind == Power
    requires forall e :: e in g2 ==> e.kind == SwitchTray
    requires forall e :: e in g3 ==> e.kind == ComputeTray
    ensures var all := g0 + g1 + g2 + g3;
      forall i, j :: 0 <= i < j < |all| ==> Rank(all[i].kind) <= Rank(all[j].kind)
  {
    var all := g0 + g1 + g2 + g3;
    forall i | 0 <= i < |all|
      ensures Rank(all[i].kind) == RankAt(|g0|, |g1|, |g2|, i)
    {
      if i < |g0| {
        assert all[i] in g0;
      } else if i < |g0| + |g1| {
        assert all[i] == g1[i - |g0|];
      } else if i < |g0| + |g1| + |g2| {
        assert all[i] == g2[i - |g0| - |g1|];
      } else {
        assert all[i] == g3[i - |g0| - |g1| - |g2|];
      }
    }
  }

  /** The rank of the group that index `i` of the list falls in, given the
      sizes of the first three groups. */
  function RankAt(n0: nat, n1: nat, n2: nat, i: nat): nat {
    if i < n0 then 0 else if i < n0 + n1 then 1 else if i < n0 + n1 + n2 then 2 else 3
  }

  lemma GroupRecords(d: Value, kind: Kind)
    requires Group(d, kind).Ok?
    ensures forall e :: e in Group(d, kind).value ==>
      e.kind == kind && e.uHeight == Height(kind) && Fits(e.startU)
  {
    var list := Field(d, KindKey(kind));
    if list.Arr? {
      var good := (e: RackItem) => e.kind == kind && e.uHeight == Height(kind);
      assert forall k :: 0 <= k < |list.items| ==> good(EntryOf(kind)(list.items[k]));
      PlacedRecords(list.items, EntryOf(kind), good);
    }
  }

  /** Only the start unit is checked: a three-unit shelf listed at one of
      the two top units is placed, and reaches above the rack. */
  lemma ShelfAtTopOverhangs(d: Value, shelf: Value, n: int)
    requires RackHeight - 2 < n <= RackHeight
    requires Field(d, "Power_Shelf") == Arr([shelf]) && Field(shelf, "POSITION") == Num(n)
    ensures Group(d, Power).Ok? && |Group(d, Power).value| == 1
    ensures var e := Group(d, Power).value[0];
      e.startU == n && e.uHeight == 3 && e.startU + e.uHeight - 1 > RackHeight
  {
    PowerKey();
    ShelfAt(shelf, n);
    assert !IsNullish(shelf);
    var e := Entry(Power, shelf);
    assert e.startU == n && e.uHeight == Height(Power) == 3;
    GroupOfOne(d, Power, shelf);
    assert Group(d, Power).value[0] == e;
  }

  lemma PowerKey()
    ensures KindKey(Power) == "Power_Shelf"
  {
  }

  /** A group listing one entry whose start unit fits holds its record. */
  lemma GroupOfOne(d: Value, kind: Kind, item: Value)
    requires Field(d, KindKey(kind)) == Arr([item])
    requires !IsNullish(item) && Fits(Entry(kind, item).startU)
    ensures Group(d, kind) == Ok([Entry(kind, item)])
  {
    SingleEntry(item, EntryOf(kind));
  }

  /** A shelf whose position is the number `n` starts at unit `n`. */
  lemma ShelfAt(shelf: Value, n: int)
    requires Field(shelf, "POSITION") == Num(n)
    ensures Entry(Power, shelf).startU == n
  {
    EntryStart(Power, shelf);
    ShelfNumber(n);
  }

  lemma EntryStart(kind: Kind, item: Value)
    ensures Entry(kind, item).startU == MapPositionToRU(KindType(kind), Field(item, "POSITION"))
  {
  }

  lemma ShelfNumber(n: int)
    ensures MapPositionToRU(PowerShelfType, Num(n)) == n
  {
    NumberPosition(PowerShelfType, n);
    NumericPosition(PowerShelfType, n, "");
    assert IntToString(n) + "" == IntToString(n);
  }

  lemma SingleEntry(item: Value, entry: Value -> RackItem)
    requires !IsNullish(item) && Fits(entry(item).startU)
    ensures Placed([item], entry) == Ok([entry(item)])
  {
    assert [item][..0] == [];
    assert Placed([item][..0], entry) == Ok([]);
    assert [] + [entry(item)] == [entry(item)];
  }

  // ------------------------------------------------ the imperative rack list

  /** The `rackItems` array with its `addItem` closure. */
  class Rack {
    var rackItems: seq<RackItem>

    constructor()
      ensures rackItems == []
    {
      rackItems := [];
    }

    /** `addItem`: push the record when its start unit is in the rack. */
    method AddItem(u: int, h: nat, caption: string, kind: Kind, details: Value)
      modifies this
      ensures rackItems == old(rackItems) + (if Fits(u) then [RackItem(h, u, caption, kind, details)] else [])
    {
      if u < 1 || u > RackHeight {
        return;
      }
      rackItems := rackItems + [RackItem(h, u, caption, kind, details)];
    }

    /** One `forEach` body: map the position, choose the label, `addItem`. */
    method AddEntry(kind: Kind, item: Value)
      modifies this
      ensures rackItems == old(rackItems) + Placement(EntryOf(kind)(item))
    {
      var pos := Field(item, "POSITION");
      var u := MapPositionToRU(KindType(kind), pos);
      var caption := LabelFor(kind, item, u);
      assert EntryOf(kind)(item) == RackItem(Height(kind), u, caption, kind, item);
      AddItem(u, Height(kind), caption, kind, item);
    }

    /** `if (d.key) { d.key.forEach(...) }` for one group. */
    method AddListed(d: Value, kind: Kind) returns (thrown: Option<string>)
      modifies this
      ensures thrown.Some? <==> Group(d, kind).Err?
      ensures thrown.Some? ==> thrown.value == Group(d, kind).error
      ensures thrown.None? ==> rackItems == old(rackItems) + Group(d, kind).value
    {
      var list := Field(d, KindKey(kind));
      if !Truthy(list) {
        assert rackItems + [] == rackItems;
        return None;
      }
      if !list.Arr? {
        return Some(ForEachNotAFunction);
      }
      thrown := AddGroup(kind, list.items);
    }

    /** One `forEach` over a group's list. On a throw the render is
        abandoned, so only the error is stated. */
    method AddGroup(kind: Kind, items: seq<Value>) returns (thrown: Option<string>)
      modifies this
      ensures thrown.Some? <==> Placed(items, EntryOf(kind)).Err?
      ensures thrown.Some? ==> thrown.value == Placed(items, EntryOf(kind)).error
      ensures thrown.None? ==> rackItems == old(rackItems) + Placed(items, EntryOf(kind)).value
    {
      var i := 0;
      while i < |items|
        invariant 0 <= i <= |items|
        invariant Placed(items[..i], EntryOf(kind)).Ok?
        invariant rackItems == old(rackItems) + Placed(items[..i], EntryOf(kind)).value
      {
        var item := items[i];
        if IsNullish(item) {
          NullEntryThrows(items, i, EntryOf(kind));
          return Some(ConfigurationView.NullAccess);
        }
        AddEntry(kind, item);
        PlacedExtend(items, i, EntryOf(kind), old(rackItems), rackItems);
        i := i + 1;
      }
      assert items[..i] == items;
      return None;
    }
  }

  /** What `addItem` pushes for a record: the record when it fits. */
  function Placement(e: RackItem): (r: seq<RackItem>)
    ensures r == [] || r == [e]
  {
    if Fits(e.startU) then [e] else []
  }

  /** One more entry of the list: its record is appended when it fits. */
  lemma PlacedStep(items: seq<Value>, i: nat, entry: Value -> RackItem)
    requires i < |items| && Placed(items[..i], entry).Ok? && !IsNullish(items[i])
    ensures Placed(items[..i + 1], entry) == Ok(Placed(items[..i], entry).value + Placement(entry(items[i])))
  {
    assert items[..i + 1][..i] == items[..i];
    assert items[..i + 1][i] == items[i];
  }

  /** The label statements of the four `forEach` bodies. */
  method LabelFor(kind: Kind, item: Value, u: int) returns (caption: string)
    ensures caption == Caption(kind, item, u)
  {
    var pos := Field(item, "POSITION");
    match kind {
      case Mgmt => caption := "Mgmt Switch " + StringForm(pos);
      case Power =>
        caption := "Power Shelf";
        if u == 4 { caption := "3U pwrshlf-01"; }
        if u == 7 { caption := "3U pwrshlf-02"; }
        if u == 39 || u == 40 { caption := "3U pwrshlf-03"; }
        if u == 42 || u == 43 { caption := "3U pwrshlf-04"; }
      case SwitchTray => caption := "Switch Tray-" + StringForm(pos);
      case ComputeTray => caption := "Compute Tray-" + StringForm(pos);
    }
  }

  /** The loop step of `AddGroup`: appending the placement of entry `i` to
      the records of the first `i` entries gives the records of `i + 1`. */
  lemma PlacedExtend(items: seq<Value>, i: nat, entry: Value -> RackItem, base: seq<RackItem>, now: seq<RackItem>)
    requires i < |items| && Placed(items[..i], entry).Ok? && !IsNullish(items[i])
    requires now == base + Placed(items[..i], entry).value + Placement(entry(items[i]))
    ensures Placed(items[..i + 1], entry).Ok? && now == base + Placed(items[..i + 1], entry).value
  {
    PlacedStep(items, i, entry);
  }

  /** A null entry after a prefix that went through makes the whole list
      throw the null-access error. */
  lemma NullEntryThrows(items: seq<Value>, i: nat, entry: Value -> RackItem)
    requires i < |items| && Placed(items[..i], entry).Ok? && IsNullish(items[i])
    ensures Placed(items, entry) == Err(ConfigurationView.NullAccess)
  {
    assert items[..i + 1][..i] == items[..i];
    assert items[..i + 1][i] == items[i];
    assert Placed(items[..i + 1], entry) == Err(ConfigurationView.NullAccess);
    PlacedPrefixErr(items, i + 1, entry);
  }

  /** Once a prefix throws, so does the whole list, with the same error. */
  lemma {:induction false} PlacedPrefixErr(items: seq<Value>, n: nat, entry: Value -> RackItem)
    requires n <= |items| && Placed(items[..n], entry).Err?
    ensures Placed(items, entry) == Placed(items[..n], entry)
    decreases |items| - n
  {
    if n < |items| {
      var m := |items| - 1;
      assert items[..m][..n] == items[..n];
      PlacedPrefixErr(items[..m], n, entry);
      assert items[..|items|] == items;
    } else {
      assert items[..n] == items;
    }
  }

  /** The front-item block of `RackView`: the four `if (d.key)` blocks in
      order; the first throw ends the render. */
  method BuildFront(d: Value) returns (r: Result<seq<RackItem>, string>)
    ensures r == FrontItems(d)
  {
    var rack := new Rack();
    ghost var front := Group(d, Mgmt);
    var thrown := rack.AddListed(d, Mgmt);
    if thrown.Some? { return Err(thrown.value); }
    assert rack.rackItems == front.value;
    front := Then(front, Group(d, Power));
    thrown := rack.AddListed(d, Power);
    if thrown.Some? { return Err(thrown.value); }
    assert rack.rackItems == front.value;
    front := Then(front, Group(d, SwitchTray));
    thrown := rack.AddListed(d, SwitchTray);
    if thrown.Some? { return Err(thrown.value); }
    assert rack.rackItems == front.value;
    front := Then(front, Group(d, ComputeTray));
    thrown := rack.AddListed(d, ComputeTray);
    if thrown.Some? { return Err(thrown.value); }
    assert rack.rackItems == front.value;
    return Ok(rack.rackItems);
  }

  /** The component's front view: nothing without a truthy `data.DATA`, the
      placed records otherwise. */
  function FrontView(data: Value): (r: Result<Option<seq<RackItem>>, string>)
    ensures !Truthy(Field(data, "DATA")) ==> r == Ok(None)
    ensures Truthy(Field(data, "DATA")) ==> (r.Ok? <==> FrontItems(Field(data, "DATA")).Ok?)
    ensures Truthy(Field(data, "DATA")) && r.Ok? ==> r == Ok(Some(FrontItems(Field(data, "DATA")).value))
    ensures Truthy(Field(data, "DATA")) && r.Err? ==> r.error == FrontItems(Field(data, "DATA")).error
    ensures r.Ok? && r.value.Some? ==> forall e :: e in r.value.value ==> Fits(e.startU)
  {
    var d := Field(data, "DATA");
    if !Truthy(d) then Ok(None)
    else
      match FrontItems(d)
      case Err(e) => Err(e)
      case Ok(items) =>
        FrontLayout(d);
        Ok(Some(items))
  }

  // --------------------------------------------------------- the PSU order

  /** `parseInt(psu.POSITION) || 0`: no radix, so a `0x` prefix reads as
      hexadecimal; `NaN` and zero both give 0. */
  function PsuPosition(psu: Value): int {
    match ParseInt(StringForm(Field(psu, "POSITION")), true)
    case None => 0
    case Some(p) => p
  }

  /** `Math.ceil(pos / 2)` */
  function Pair(pos: int): (r: int)
    ensures 2 * (r - 1) < pos <= 2 * r
  {
    (pos + 1) / 2
  }

  /** The comparator passed to `sort`. */
  function Compare(a: Value, b: Value): int {
    var posA, posB := PsuPosition(a), PsuPosition(b);
    var pairA, pairB := Pair(posA), Pair(posB);
    if pairA != pairB then pairB - pairA else posA - posB
  }

  /** Position `p` may come before position `q`: a higher pair first, and
      within a pair the lower position first. */
  predicate Precedes(p: int, q: int) {
    Pair(p) > Pair(q) || (Pair(p) == Pair(q) && p <= q)
  }

  /** The comparator puts `a` first (or keeps the two as they are) exactly
      when its position precedes that of `b`. */
  lemma CompareMeans(a: Value, b: Value)
    ensures Compare(a, b) <= 0 <==> Precedes(PsuPosition(a), PsuPosition(b))
  {
  }

  /** `Precedes` is a total preorder, so sorting by it is well defined. */
  lemma PrecedesTotalPreorder(p: int, q: int, r: int)
    ensures Precedes(p, p)
    ensures Precedes(p, q) || Precedes(q, p)
    ensures Precedes(p, q) && Precedes(q, r) ==> Precedes(p, r)
  {
  }

  predicate Ordered(s: seq<Value>, pos: Value -> int) {
    forall i, j :: 0 <= i < j < |s| ==> Precedes(pos(s[i]), pos(s[j]))
  }

  /** The entries of `s` whose position is `v`, in their order in `s`. */
  function AtKey(s: seq<Value>, pos: Value -> int, v: int): (r: seq<Value>)
    ensures |r| <= |s|
    ensures forall k :: 0 <= k < |r| ==> pos(r[k]) == v
  {
    if s == [] then [] else (if pos(s[0]) == v then [s[0]] else []) + AtKey(s[1..], pos, v)
  }

  /** Entries with the same position appear in `s` and `t` in the same
      order: what a stable sort keeps. */
  ghost predicate SameRuns(s: seq<Value>, t: seq<Value>, pos: Value -> int) {
    forall v :: AtKey(s, pos, v) == AtKey(t, pos, v)
  }

  lemma {:induction false} AtKeyAppend(s: seq<Value>, t: seq<Value>, pos: Value -> int, v: int)
    ensures AtKey(s + t, pos, v) == AtKey(s, pos, v) + AtKey(t, pos, v)
  {
    if s == [] {
      assert s + t == t;
    } else {
      assert (s + t)[0] == s[0];
      assert (s + t)[1..] == s[1..] + t;
      AtKeyAppend(s[1..], t, pos, v);
    }
  }

  lemma {:induction false} AtKeyAbsent(s: seq<Value>, pos: Value -> int, v: int)
    requires forall k :: 0 <= k < |s| ==> pos(s[k]) != v
    ensures AtKey(s, pos, v) == []
  {
    if s != [] {
      AtKeyAbsent(s[1..], pos, v);
    }
  }

  /** An entry that moves to the front of entries with other positions
      leaves every run as it was. */
  lemma MovePastOthers(p: seq<Value>, x: Value, q: seq<Value>, pos: Value -> int, v: int)
    requires forall k :: 0 <= k < |q| ==> pos(q[k]) != pos(x)
    ensures AtKey(p + [x] + q, pos, v) == AtKey(p + q + [x], pos, v)
  {
    AtKeyAppend(p + [x], q, pos, v);
    AtKeyAppend(p, [x], pos, v);
    AtKeyAppend(p + q, [x], pos, v);
    AtKeyAppend(p, q, pos, v);
    if v == pos(x) {
      AtKeyAbsent(q, pos, v);
    } else {
      assert AtKey([x], pos, v) == [] by {
        assert [x][1..] == [];
      }
    }
  }

  lemma AtKeyFound(s: seq<Value>, pos: Value -> int, v: int)
    requires AtKey(s, pos, v) != []
    ensures exists k :: 0 <= k < |s| && pos(s[k]) == v
  {
    if forall k :: 0 <= k < |s| ==> pos(s[k]) != v {
      AtKeyAbsent(s, pos, v);
    }
  }

  lemma AtKeyHead(s: seq<Value>, pos: Value -> int)
    requires s != []
    ensures AtKey(s, pos, pos(s[0])) != [] && AtKey([], pos, pos(s[0])) == []
  {
  }

  /** Two orderings with the same runs are the same sequence: sorting by
      `Precedes` and keeping the runs determines the result. */
  lemma {:induction false} StableOrderUnique(s: seq<Value>, t: seq<Value>, pos: Value -> int)
    requires Ordered(s, pos) && Ordered(t, pos) && SameRuns(s, t, pos)
    ensures s == t
  {
    if s == [] && t == [] {
    } else if s == [] || t == [] {
      AtKeyHead(if s == [] then t else s, pos);
      assert false;
    } else {
      HeadsAgree(s, t, pos);
      TailsSameRuns(s, t, pos);
      OrderedTail(s, pos);
      OrderedTail(t, pos);
      StableOrderUnique(s[1..], t[1..], pos);
      assert s == [s[0]] + s[1..];
      assert t == [t[0]] + t[1..];
    }
  }

  lemma OrderedTail(s: seq<Value>, pos: Value -> int)
    requires s != [] && Ordered(s, pos)
    ensures Ordered(s[1..], pos)
  {
    forall p, q | 0 <= p < q < |s[1..]|
      ensures Precedes(pos(s[1..][p]), pos(s[1..][q]))
    {
      assert s[1..][p] == s[p + 1] && s[1..][q] == s[q + 1];
    }
  }

  /** Both orderings start with the first entry of the run of the least
      position. */
  lemma HeadsAgree(s: seq<Value>, t: seq<Value>, pos: Value -> int)
    requires s != [] && t != []
    requires Ordered(s, pos) && Ordered(t, pos) && SameRuns(s, t, pos)
    ensures s[0] == t[0]
  {
    var v, w := pos(s[0]), pos(t[0]);
    FirstOfOwnRun(s, pos);
    FirstOfOwnRun(t, pos);
    assert AtKey(s, pos, v) == AtKey(t, pos, v);
    assert AtKey(t, pos, w) == AtKey(s, pos, w);
    LeastFirst(t, pos, v);
    LeastFirst(s, pos, w);
    PrecedesTotalPreorder(v, w, v);
    assert v == w;
  }

  lemma FirstOfOwnRun(s: seq<Value>, pos: Value -> int)
    requires s != []
    ensures AtKey(s, pos, pos(s[0])) != [] && AtKey(s, pos, pos(s[0]))[0] == s[0]
  {
  }

  /** In an ordering, the first entry's position precedes every position
      that occurs. */
  lemma LeastFirst(s: seq<Value>, pos: Value -> int, v: int)
    requires s != [] && Ordered(s, pos) && AtKey(s, pos, v) != []
    ensures Precedes(pos(s[0]), v)
  {
    AtKeyFound(s, pos, v);
    var k :| 0 <= k < |s| && pos(s[k]) == v;
    PrecedesTotalPreorder(v, v, v);
  }

  lemma TailsSameRuns(s: seq<Value>, t: seq<Value>, pos: Value -> int)
    requires s != [] && t != [] && s[0] == t[0] && SameRuns(s, t, pos)
    ensures SameRuns(s[1..], t[1..], pos)
  {
    forall u
      ensures AtKey(s[1..], pos, u) == AtKey(t[1..], pos, u)
    {
      var head := if pos(s[0]) == u then [s[0]] else [];
      assert AtKey(s, pos, u) == head + AtKey(s[1..], pos, u);
      assert AtKey(t, pos, u) == head + AtKey(t[1..], pos, u);
      assert AtKey(s, pos, u) == AtKey(t, pos, u);
      assert (head + AtKey(s[1..], pos, u))[|head|..] == AtKey(s[1..], pos, u);
      assert (head + AtKey(t[1..], pos, u))[|head|..] == AtKey(t[1..], pos, u);
    }
  }

  /** Insertion sort by `Precedes` on the positions `pos` gives: the result
      is in order, a permutation of the input, and stable. */
  method SortByPairs(a: array<Value>, pos: Value -> int)
    modifies a
    ensures Ordered(a[..], pos)
    ensures multiset(a[..]) == multiset(old(a[..]))
    ensures SameRuns(a[..], old(a[..]), pos)
  {
    var i := 0;
    while i < a.Length
      invariant 0 <= i <= a.Length
      invariant Ordered(a[..i], pos)
      invariant multiset(a[..]) == multiset(old(a[..]))
      invariant a[i..] == old(a[i..])
      invariant SameRuns(a[..i], old(a[..i]), pos)
    {
      ghost var b := a[..];
      var j := Insert(a, pos, i);
      InsertStep(old(a[..]), b, a[..], pos, i, j);
      RotatedPermutes(b, i, j);
      assert a[..i + 1] == a[..][..i + 1] && a[i + 1..] == a[..][i + 1..];
      assert old(a[..i + 1]) == old(a[..])[..i + 1] && old(a[i + 1..]) == old(a[..])[i + 1..];
      i := i + 1;
    }
    assert a[..] == a[..a.Length];
    assert old(a[..]) == old(a[..a.Length]);
  }

  /** `o` with the entry at `i` moved down to slot `j`. */
  function Rotated(o: seq<Value>, i: int, j: int): (r: seq<Value>)
    requires 0 <= j <= i < |o|
    ensures |r| == |o| && r[j] == o[i]
    ensures j > 0 ==> r[j - 1] == o[j - 1]
  {
    o[..j] + [o[i]] + o[j..i] + o[i + 1..]
  }

  lemma RotatedPermutes(o: seq<Value>, i: int, j: int)
    requires 0 <= j <= i < |o|
    ensures multiset(Rotated(o, i, j)) == multiset(o)
  {
    assert o == o[..j] + o[j..i] + [o[i]] + o[i + 1..];
  }

  /** One pass of the insertion sort: `a[i]` moves down by adjacent swaps,
      past the entries that must follow it, to the slot `j`. */
  method Insert(a: array<Value>, pos: Value -> int, i: int) returns (j: int)
    requires 0 <= i < a.Length
    modifies a
    ensures 0 <= j <= i
    ensures a[..] == Rotated(old(a[..]), i, j)
    ensures j == 0 || Precedes(pos(old(a[..])[j - 1]), pos(old(a[..])[i]))
    ensures forall k :: j <= k < i ==> !Precedes(pos(old(a[..])[k]), pos(old(a[..])[i]))
  {
    ghost var o := a[..];
    j := i;
    assert a[..] == Rotated(o, i, i);
    while j > 0 && !Precedes(pos(a[j - 1]), pos(a[j]))
      invariant 0 <= j <= i
      invariant a[..] == Rotated(o, i, j)
      invariant forall k :: j <= k < i ==> !Precedes(pos(o[k]), pos(o[i]))
    {
      assert a[j - 1] == a[..][j - 1] == o[j - 1] && a[j] == a[..][j] == o[i];
      SwapDown(a, j);
      Shift(o, i, j);
      j := j - 1;
    }
    assert old(a[..]) == o;
    assert j > 0 ==> a[j - 1] == a[..][j - 1] == o[j - 1] && a[j] == a[..][j] == o[i];
  }

  /** Exchanges the entries at `j - 1` and `j`. */
  method SwapDown(a: array<Value>, j: int)
    requires 0 < j < a.Length
    modifies a
    ensures a[..] == old(a[..])[j - 1 := old(a[j])][j := old(a[j - 1])]
  {
    a[j - 1], a[j] := a[j], a[j - 1];
  }

  /** One swap of `Insert`: moving the entry from slot `j` to slot `j - 1`. */
  lemma Shift(o: seq<Value>, i: int, j: int)
    requires 0 < j <= i < |o|
    ensures Rotated(o, i, j)[j - 1 := o[i]][j := o[j - 1]] == Rotated(o, i, j - 1)
  {
  }

  /** What one `Insert` does for the sort: with `b[..i]` in order and
      holding the runs of `o[..i]`, the rotated `r` has `r[..i + 1]` in order
      and holding the runs of `o[..i + 1]`. */
  lemma InsertStep(o: seq<Value>, b: seq<Value>, r: seq<Value>, pos: Value -> int, i: int, j: int)
    requires 0 <= j <= i < |b| == |o|
    requires Ordered(b[..i], pos) && SameRuns(b[..i], o[..i], pos) && b[i..] == o[i..]
    requires r == Rotated(b, i, j)
    requires j == 0 || Precedes(pos(b[j - 1]), pos(b[i]))
    requires forall k :: j <= k < i ==> !Precedes(pos(b[k]), pos(b[i]))
    ensures Ordered(r[..i + 1], pos) && SameRuns(r[..i + 1], o[..i + 1], pos) && r[i + 1..] == o[i + 1..]
  {
    var x := b[i];
    assert x == o[i];
    assert r[..i + 1] == b[..j] + [x] + b[j..i];
    assert r[i + 1..] == b[i + 1..] == o[i + 1..];
    InsertedOrdered(b, pos, i, j);
    forall k | 0 <= k < |b[j..i]|
      ensures pos(b[j..i][k]) != pos(x)
    {
      PrecedesTotalPreorder(pos(x), pos(x), pos(x));
    }
    assert b[..j] + b[j..i] == b[..i];
    assert o[..i + 1] == o[..i] + [x];
    var front, before := r[..i + 1], o[..i + 1];
    forall v
      ensures AtKey(front, pos, v) == AtKey(before, pos, v)
    {
      MovePastOthers(b[..j], x, b[j..i], pos, v);
      AtKeyAppend(b[..i], [x], pos, v);
      AtKeyAppend(o[..i], [x], pos, v);
    }
  }

  /** Where `Insert` stops, `o[i]` follows what is below it and precedes
      what it passed, so the prefix is in order again. */
  lemma InsertedOrdered(o: seq<Value>, pos: Value -> int, i: int, j: int)
    requires 0 <= j <= i < |o|
    requires Ordered(o[..i], pos)
    requires j == 0 || Precedes(pos(o[j - 1]), pos(o[i]))
    requires forall k :: j <= k < i ==> !Precedes(pos(o[k]), pos(o[i]))
    ensures Ordered(o[..j] + [o[i]] + o[j..i], pos)
  {
    var s := o[..j] + [o[i]] + o[j..i];
    forall p, q | 0 <= p < q < |s|
      ensures Precedes(pos(s[p]), pos(s[q]))
    {
      if q < j {
        assert s[p] == o[..i][p] && s[q] == o[..i][q];
      } else if q == j {
        assert s[p] == o[p] && s[q] == o[i];
        if p < j - 1 {
          assert o[p] == o[..i][p] && o[j - 1] == o[..i][j - 1];
        }
        PrecedesTotalPreorder(pos(o[p]), pos(o[j - 1]), pos(o[i]));
      } else if p == j {
        assert s[p] == o[i] && s[q] == o[q - 1];
        PrecedesTotalPreorder(pos(o[i]), pos(o[q - 1]), pos(o[i]));
      } else if p < j {
        assert s[p] == o[..i][p] && s[q] == o[..i][q - 1];
      } else {
        assert s[p] == o[..i][p - 1] && s[q] == o[..i][q - 1];
      }
    }
  }

  /** `details.PSU.sort(...)`: in place, the shelf's PSUs end up as a
      permutation of themselves, pair 3 (PSU 5 and 6) before pair 2 before
      pair 1, the lower position first within a pair, PSUs that share a
      position keeping their order. A null entry makes the comparator throw
      and is not accepted. */
  method SortPsus(psus: array<Value>)
    requires forall k :: 0 <= k < psus.Length ==> !IsNullish(psus[k])
    modifies psus
    ensures Ordered(psus[..], PsuPosition)
    ensures forall i, j :: 0 <= i < j < psus.Length ==> Compare(psus[i], psus[j]) <= 0
    ensures multiset(psus[..]) == multiset(old(psus[..]))
    ensures SameRuns(psus[..], old(psus[..]), PsuPosition)
  {
    SortByPairs(psus, PsuPosition);
    forall i, j | 0 <= i < j < psus.Length
      ensures Compare(psus[i], psus[j]) <= 0
    {
      CompareMeans(psus[i], psus[j]);
    }
  }

  // ---------------------------------------------------------------- offsets

  /** `bottom: (startU - 1) * 2 rem` */
  function BottomRem(item: RackItem): int {
    (item.startU - 1) * 2
  }

  /** `height: uHeight * 2 rem` */
  function HeightRem(item: RackItem): int {
    item.uHeight * 2
  }

  /** The tooltip opens below the upper half of the rack and above the
      lower half. */
  predicate TooltipBelow(item: RackItem) {
    item.startU > 24
  }

  /** Each rack unit is a 2rem band of the 96rem rack: a placed record's
      bottom edge lies on a band boundary inside the rack, its unit is read
      back from the offset, and its tooltip opens below exactly when it sits
      in the upper 48rem. */
  lemma Offsets(item: RackItem)
    requires Fits(item.startU)
    ensures 0 <= BottomRem(item) <= 2 * RackHeight - 2 && BottomRem(item) % 2 == 0
    ensures BottomRem(item) / 2 + 1 == item.startU
    ensures BottomRem(item) + HeightRem(item) == 2 * (item.startU - 1 + item.uHeight)
    ensures TooltipBelow(item) <==> BottomRem(item) >= RackHeight
  {
  }

  /** The unit ruler, top to bottom. */
  function RuLabels(): (r: seq<int>)
    ensures |r| == RackHeight
    ensures forall i :: 0 <= i < |r| ==> r[i] == RackHeight - i
  {
    seq(RackHeight, i => RackHeight - i)
  }

  // ------------------------------------------------------------ the rear

  /** `d.Cable_Cartridge || []` */
  function Cartridges(d: Value): Value {
    var c := Field(d, "Cable_Cartridge");
    if Truthy(c) then c else Arr([])
  }

  /** The slot order, left to right. */
  const SlotOrder: seq<int> := [4, 3, 2, 1]

  /** `cartridges.find(c => c.POSITION === String(num))` throws: the first
      entry that is null, undefined or at that position is null or
      undefined, so reading its `POSITION` fails. */
  predicate SlotThrows(items: seq<Value>, num: int) {
    var stop := FindFirst(items, (x: Value) => IsNullish(x) || ConfigurationView.AtPosition(x, IntToString(num)));
    stop.Some? && IsNullish(stop.value)
  }

  /** `[4, 3, 2, 1].map(num => getCartridge(String(num)))`. */
  function RearSlots(d: Value): (r: Result<seq<Option<Value>>, string>)
    ensures r.Ok? ==> |r.value| == 4 && Cartridges(d).Arr?
    ensures r.Ok? ==> forall k :: 0 <= k < 4 ==>
      r.value[k] == FindFirst(Cartridges(d).items, (c: Value) => ConfigurationView.AtPosition(c, IntToString(SlotOrder[k])))
    ensures !Cartridges(d).Arr? ==> r == Err(FindNotAFunction)
    ensures Cartridges(d).Arr? ==>
      (r.Err? <==> exists k :: 0 <= k < 4 && SlotThrows(Cartridges(d).items, SlotOrder[k]))
    ensures Cartridges(d).Arr? && r.Err? ==> r.error == ConfigurationView.NullAccess
  {
    var c := Cartridges(d);
    if !c.Arr? then Err(FindNotAFunction)
    else SlotsFrom(c.items, SlotOrder)
  }

  /** `getCartridge(String(num))`: the first cartridge at the position, or
      none, or the throw of `find`. */
  function Slot(items: seq<Value>, num: int): (r: Result<Option<Value>, string>)
    ensures r.Err? <==> SlotThrows(items, num)
    ensures r.Err? ==> r.error == ConfigurationView.NullAccess
    ensures r.Ok? ==> r.value == FindFirst(items, (c: Value) => ConfigurationView.AtPosition(c, IntToString(num)))
  {
    ConfigurationView.FindAtIsFind(items, IntToString(num));
    ConfigurationView.FindAt(items, IntToString(num))
  }

  /** The slots for the numbers `nums`, in order; the first slot whose
      `find` throws stops the map. */
  function SlotsFrom(items: seq<Value>, nums: seq<int>): (r: Result<seq<Option<Value>>, string>)
    ensures r.Ok? ==> |r.value| == |nums|
    ensures r.Ok? ==> forall k :: 0 <= k < |nums| ==> Slot(items, nums[k]) == Ok(r.value[k])
    ensures r.Err? <==> exists k :: 0 <= k < |nums| && Slot(items, nums[k]).Err?
    ensures r.Err? ==> r.error == ConfigurationView.NullAccess
  {
    if nums == [] then Ok([])
    else
      var first := Slot(items, nums[0]);
      var rest := SlotsFrom(items, nums[1..]);
      assert forall k :: 0 < k < |nums| ==> nums[1..][k - 1] == nums[k];
      if first.Err? then Err(first.error)
      else if rest.Err? then rest
      else Ok([first.value] + rest.value)
  }

  /** With an array of cartridges none of which is null or undefined, the
      rear view renders its four slots. */
  lemma RearSlotsWithoutNulls(d: Value)
    requires Cartridges(d).Arr?
    requires forall k :: 0 <= k < |Cartridges(d).items| ==> !IsNullish(Cartridges(d).items[k])
    ensures RearSlots(d).Ok?
  {
    var items := Cartridges(d).items;
    forall k | 0 <= k < 4
      ensures !SlotThrows(items, SlotOrder[k])
    {
      var stop := FindFirst(items, (x: Value) => IsNullish(x) || ConfigurationView.AtPosition(x, IntToString(SlotOrder[k])));
      if stop.Some? {
        var i :| 0 <= i < |items| && items[i] == stop.value;
      }
    }
  }

  /** `d.Rack_Manifold_Left?.[0]` for a manifold list. */
  function Manifold(d: Value, key: string): (r: Value)
    ensures Field(d, key).Arr? && Field(d, key).items != [] ==> r == Field(d, key).items[0]
    ensures IsNullish(Field(d, key)) ==> r == Undefined
  {
    var m := Field(d, key);
    match m
    case Arr(items) => if items == [] then Undefined else items[0]
    case Str(s) => if s == "" then Undefined else Str([s[0]])
    case Obj(fields) => if "0" in fields then fields["0"] else Undefined
    case _ => Undefined
  }
}
