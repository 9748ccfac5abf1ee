/** `ConfigurationView`: which tiles the configuration screen shows for the
    `DATA` object of a configuration response, and in which order. A tile is
    recorded by the source values it displays. A `TypeError` thrown while
    the section list is built (a property read on a null list entry, or
    `.trim` on a serial number that is not a string) fails the whole render
    and is an `Err`. */
module ConfigurationView {
  import opened Wrappers
  import opened Text
  import opened Json
  import opened Seqs

  const NullAccess := "TypeError: cannot read properties of null or undefined"
  const TrimNotAFunction := "TypeError: SN.trim is not a function"

  /** `isValid` */
  predicate IsValid(v: Value) {
    if IsNullish(v) then false
    else
      var s := Trim(StringForm(v));
      s != "" && ToUpper(s) != "N/A" && ToUpper(s) != "NA"
  }

  /** "N/A" or "NA" in any mix of cases. */
  predicate IsNotApplicable(s: string) {
    (|s| == 3 && (s[0] == 'n' || s[0] == 'N') && s[1] == '/' && (s[2] == 'a' || s[2] == 'A')) ||
    (|s| == 2 && (s[0] == 'n' || s[0] == 'N') && (s[1] == 'a' || s[1] == 'A'))
  }

  lemma UpperIsNotApplicable(s: string)
    ensures ToUpper(s) == "N/A" || ToUpper(s) == "NA" <==> IsNotApplicable(s)
  {
    var u := ToUpper(s);
    if |s| == 3 {
      assert u == "N/A" <==> u[0] == 'N' && u[1] == '/' && u[2] == 'A';
    } else if |s| == 2 {
      assert u == "NA" <==> u[0] == 'N' && u[1] == 'A';
    }
  }

  /** A value is valid exactly when it is neither null nor undefined and its
      string form, trimmed, is neither empty nor "N/A"/"NA" in any case. */
  lemma IsValidMeans(v: Value)
    ensures IsValid(v) <==> !IsNullish(v) && Trim(StringForm(v)) != "" && !IsNotApplicable(Trim(StringForm(v)))
  {
    if !IsNullish(v) {
      UpperIsNotApplicable(Trim(StringForm(v)));
    }
  }

  /** What a `KeyValue` cell shows. A boolean renders as an empty text; an
      object is not a valid React child and cannot be rendered. */
  datatype Cell = Hidden | Shown(caption: string, text: string) | Unrenderable(caption: string)

  /** `KeyValue`: nothing for an invalid value, an array joined by ", ", and
      any other value as React writes it. */
  function KeyValue(caption: string, v: Value): (r: Cell)
    ensures r.Hidden? <==> !IsValid(v)
    ensures IsValid(v) && v.Arr? ==> r == Shown(caption, JoinWith(ElementForms(v), ", "))
    ensures IsValid(v) && v.Str? ==> r == Shown(caption, v.s)
    ensures r.Unrenderable? <==> IsValid(v) && v.Obj?
  {
    if !IsValid(v) then Hidden
    else
      match v
      case Arr(_) => Shown(caption, JoinWith(ElementForms(v), ", "))
      case Str(s) => Shown(caption, s)
      case Num(n) => Shown(caption, IntToString(n))
      case Bool(_) => Shown(caption, "")
      case Obj(_) => Unrenderable(caption)
  }

  /** The tiles, by the source values each one shows. */
  datatype Tile =
    | PbrTile(pbrNo: Value, productPn: Value, bomRev: Value)
    | ItemTile(section: string, title: string, index: nat, item: Value)
    | HpmTile(partNumber: Value, left: Option<Value>, right: Option<Value>)
    | E1sTile(drives: seq<Value>)
    | ConnectXTile(modules: seq<Value>)

  datatype View = Nothing | Placeholder | Grid(tiles: seq<Tile>)

  /** A list entry earns a tile when its SN or its PN is valid. */
  predicate HasPart(item: Value) {
    IsValid(Field(item, "SN")) || IsValid(Field(item, "PN"))
  }

  /** `list.forEach(...)` in `renderListSection`: one tile per entry that
      earns one, in list order; the first null entry throws (reading its
      SN). `earnsTile` is `HasPart`, kept as a parameter so that the facts
      below do not depend on what makes a value valid. */
  function ItemTiles(items: seq<Value>, key: string, title: string, earnsTile: Value -> bool): (r: Result<seq<Tile>, string>)
    ensures r.Err? <==> exists i :: 0 <= i < |items| && IsNullish(items[i])
    decreases |items|
  {
    if items == [] then Ok([])
    else
      var n := |items| - 1;
      var before := ItemTiles(items[..n], key, title, earnsTile);
      assert forall i :: 0 <= i < n ==> items[..n][i] == items[i];
      if before.Err? then before
      else if IsNullish(items[n]) then Err(NullAccess)
      else Ok(before.value + (if earnsTile(items[n]) then [ItemTile(key, title, n, items[n])] else []))
  }

  /** Each tile is an entry that earns one, shown once, at its index. */
  predicate ChosenTiles(tiles: seq<Tile>, items: seq<Value>, key: string, title: string, earnsTile: Value -> bool) {
    forall k :: 0 <= k < |tiles| ==>
      tiles[k].ItemTile? && tiles[k].section == key && tiles[k].title == title &&
      tiles[k].index < |items| && tiles[k].item == items[tiles[k].index] && earnsTile(tiles[k].item)
  }

  predicate IncreasingIndices(tiles: seq<Tile>)
    requires forall k :: 0 <= k < |tiles| ==> tiles[k].ItemTile?
  {
    forall j, k :: 0 <= j < k < |tiles| ==> tiles[j].index < tiles[k].index
  }

  /** One tile per entry that earns one, in list order, and no other. */
  lemma {:induction false} ItemTilesSelection(items: seq<Value>, key: string, title: string, earnsTile: Value -> bool)
    requires ItemTiles(items, key, title, earnsTile).Ok?
    ensures var tiles := ItemTiles(items, key, title, earnsTile).value;
      ChosenTiles(tiles, items, key, title, earnsTile) && IncreasingIndices(tiles) &&
      forall i :: 0 <= i < |items| && earnsTile(items[i]) ==> ItemTile(key, title, i, items[i]) in tiles
    decreases |items|
  {
    if items != [] {
      var n := |items| - 1;
      ItemTilesSelection(items[..n], key, title, earnsTile);
      var before := ItemTiles(items[..n], key, title, earnsTile).value;
      var here: seq<Tile> := if earnsTile(items[n]) then [ItemTile(key, title, n, items[n])] else [];
      assert ItemTiles(items, key, title, earnsTile).value == before + here;
      ChosenSnoc(before, items, key, title, earnsTile);
      assert forall i :: 0 <= i < n ==> items[..n][i] == items[i];
      CoverSnoc(before, items, key, title, earnsTile);
    }
  }

  /** The tile of the last entry, if it earns one. */
  function LastTile(items: seq<Value>, key: string, title: string, earnsTile: Value -> bool): seq<Tile>
    requires items != []
  {
    var n := |items| - 1;
    if earnsTile(items[n]) then [ItemTile(key, title, n, items[n])] else []
  }

  lemma ChosenSnoc(before: seq<Tile>, items: seq<Value>, key: string, title: string, earnsTile: Value -> bool)
    requires items != []
    requires ChosenTiles(before, items[..|items| - 1], key, title, earnsTile) && IncreasingIndices(before)
    ensures var tiles := before + LastTile(items, key, title, earnsTile);
      ChosenTiles(tiles, items, key, title, earnsTile) && IncreasingIndices(tiles)
  {
    var n := |items| - 1;
    assert forall i :: 0 <= i < n ==> items[..n][i] == items[i];
  }

  lemma CoverSnoc(before: seq<Tile>, items: seq<Value>, key: string, title: string, earnsTile: Value -> bool)
    requires items != []
    requires forall i :: 0 <= i < |items| - 1 && earnsTile(items[i]) ==> ItemTile(key, title, i, items[i]) in before
    ensures var tiles := before + LastTile(items, key, title, earnsTile);
      forall i :: 0 <= i < |items| && earnsTile(items[i]) ==> ItemTile(key, title, i, items[i]) in tiles
  {
    var n := |items| - 1;
    var tiles := before + LastTile(items, key, title, earnsTile);
    forall i | 0 <= i < |items| && earnsTile(items[i])
      ensures ItemTile(key, title, i, items[i]) in tiles
    {
      if i == n {
        assert tiles[|before|] == ItemTile(key, title, i, items[i]);
      }
    }
  }

  /** `renderListSection(key, title, ...)`: nothing unless `d[key]` is an
      array. */
  function ListTiles(d: Value, key: string, title: string): Result<seq<Tile>, string> {
    var list := Field(d, key);
    if list.Arr? then ItemTiles(list.items, key, title, HasPart) else Ok([])
  }

  lemma ListTilesNotArray(d: Value, key: string, title: string)
    requires !Field(d, key).Arr?
    ensures ListTiles(d, key, title) == Ok([])
  {
  }

  // --------------------------------------------------------------------- HPM

  predicate AtPosition(item: Value, pos: string) {
    Field(item, "POSITION") == Str(pos)
  }

  /** `items.find(i => i.POSITION === pos)`: the scan stops at the first
      entry at that position, and throws on a null entry reached before. */
  function FindAt(items: seq<Value>, pos: string): (r: Result<Option<Value>, string>)
    ensures r.Ok? && r.value.Some? ==> r.value.value in items && AtPosition(r.value.value, pos)
    ensures r.Err? ==> r.error == NullAccess
  {
    if items == [] then Ok(None)
    else if IsNullish(items[0]) then Err(NullAccess)
    else if AtPosition(items[0], pos) then Ok(Some(items[0]))
    else FindAt(items[1..], pos)
  }

  /** `FindAt` is `find` where it does not throw, and it throws exactly when
      the first entry that is null or at the position is null. */
  lemma {:induction false} FindAtIsFind(items: seq<Value>, pos: string)
    ensures var stop := FindFirst(items, (x: Value) => IsNullish(x) || AtPosition(x, pos));
      FindAt(items, pos).Err? <==> stop.Some? && IsNullish(stop.value)
    ensures FindAt(items, pos).Ok? ==> FindAt(items, pos).value == FindFirst(items, (x: Value) => AtPosition(x, pos))
  {
    if items != [] && !IsNullish(items[0]) && !AtPosition(items[0], pos) {
      FindAtIsFind(items[1..], pos);
    }
  }

  /** `leftHPM?.PN || rightHPM?.PN` */
  function CommonPartNumber(left: Option<Value>, right: Option<Value>): Value {
    var leftPn := if left.Some? then Field(left.value, "PN") else Undefined;
    if Truthy(leftPn) then leftPn else if right.Some? then Field(right.value, "PN") else Undefined
  }

  /** The HPM block: one consolidated tile when a left or a right module
      exists, the per-entry tiles otherwise. */
  function HpmTiles(d: Value): Result<seq<Tile>, string> {
    var hpm := Field(d, "HPM");
    if !hpm.Arr? then Ok([])
    else
      var left := FindAt(hpm.items, "L");
      if left.Err? then Err(left.error)
      else
        var right := FindAt(hpm.items, "R");
        if right.Err? then Err(right.error)
        else if left.value.Some? || right.value.Some? then
          Ok([HpmTile(CommonPartNumber(left.value, right.value), left.value, right.value)])
        else ItemTiles(hpm.items, "HPM", "HPM", HasPart)
  }

  /** With a left or right module, the part number is the left module's
      when that is truthy and the right module's otherwise. */
  lemma HpmConsolidated(d: Value)
    requires Field(d, "HPM").Arr?
    requires var items := Field(d, "HPM").items;
      FindAt(items, "L").Ok? && FindAt(items, "R").Ok? &&
      (FindAt(items, "L").value.Some? || FindAt(items, "R").value.Some?)
    ensures var items := Field(d, "HPM").items;
      var l := FindAt(items, "L").value; var r := FindAt(items, "R").value;
      HpmTiles(d) == Ok([HpmTile(CommonPartNumber(l, r), l, r)]) &&
      (l.Some? && Truthy(Field(l.value, "PN")) ==> CommonPartNumber(l, r) == Field(l.value, "PN")) &&
      (!(l.Some? && Truthy(Field(l.value, "PN"))) && r.Some? ==> CommonPartNumber(l, r) == Field(r.value, "PN"))
  {
  }

  /** Without left and right modules the HPM list is shown entry by entry;
      the scans found no null entry, so this does not throw. */
  lemma {:induction false} HpmFallback(d: Value)
    requires Field(d, "HPM").Arr?
    requires var items := Field(d, "HPM").items;
      FindAt(items, "L") == Ok(None) && FindAt(items, "R") == Ok(None)
    ensures HpmTiles(d) == ItemTiles(Field(d, "HPM").items, "HPM", "HPM", HasPart)
    ensures HpmTiles(d).Ok?
  {
    var items := Field(d, "HPM").items;
    NoMatchNoNull(items, "L");
  }

  lemma {:induction false} NoMatchNoNull(items: seq<Value>, pos: string)
    requires FindAt(items, pos) == Ok(None)
    ensures forall i :: 0 <= i < |items| ==> !IsNullish(items[i])
  {
    if items != [] {
      NoMatchNoNull(items[1..], pos);
      assert forall i :: 1 <= i < |items| ==> items[i] == items[1..][i - 1];
    }
  }

  // -------------------------------------------------------------------- E1.S

  /** `item.SN?.trim()` on a non-null entry. */
  function TrimmedSerial(item: Value): Result<Value, string> {
    var sn := Field(item, "SN");
    if IsNullish(sn) then Ok(Undefined)
    else if sn.Str? then Ok(Str(Trim(sn.s)))
    else Err(TrimNotAFunction)
  }

  /** The entries whose SN can be read and trimmed. */
  predicate Trimmable(item: Value) {
    !IsNullish(item) && TrimmedSerial(item).Ok?
  }

  /** `new Set(d.OS_SSD.map(item => item.SN?.trim()).filter(Boolean))` */
  function TrimmedSerials(items: seq<Value>): Result<set<string>, string> {
    if items == [] then Ok({})
    else if IsNullish(items[0]) then Err(NullAccess)
    else
      match TrimmedSerial(items[0])
      case Err(e) => Err(e)
      case Ok(sn) =>
        var rest := TrimmedSerials(items[1..]);
        if rest.Err? then rest
        else Ok(if Truthy(sn) then {sn.s} + rest.value else rest.value)
  }

  /** The set is built exactly when every entry is non-null and its SN, if
      present, is a string. */
  lemma {:induction false} TrimmedSerialsOk(items: seq<Value>)
    ensures TrimmedSerials(items).Ok? <==> forall k :: 0 <= k < |items| ==> Trimmable(items[k])
  {
    if items != [] {
      TrimmedSerialsOk(items[1..]);
      assert forall k :: 1 <= k < |items| ==> items[k] == items[1..][k - 1];
    }
  }

  /** The set holds exactly the non-empty trimmed serial numbers. */
  lemma {:induction false} TrimmedSerialsAre(items: seq<Value>, x: string)
    requires TrimmedSerials(items).Ok?
    ensures x in TrimmedSerials(items).value <==>
      x != "" && exists k :: 0 <= k < |items| && TrimmedSerial(items[k]) == Ok(Str(x))
  {
    if items != [] {
      TrimmedSerialsAre(items[1..], x);
      ExistsInTail(items, (item: Value) => TrimmedSerial(item) == Ok(Str(x)));
    }
  }

  /** The E1.S filter: a drive stays when its trimmed SN is valid and not an
      OS SSD serial. */
  predicate IsUniqueDrive(item: Value, osSerials: set<string>) {
    var sn := TrimmedSerial(item);
    sn.Ok? && IsValid(sn.value) && sn.value.s !in osSerials
  }

  function UniqueDrives(items: seq<Value>, osSerials: set<string>): (r: Result<seq<Value>, string>)
    ensures r.Ok? <==> forall k :: 0 <= k < |items| ==> Trimmable(items[k])
  {
    if items == [] then Ok([])
    else if IsNullish(items[0]) then Err(NullAccess)
    else
      match TrimmedSerial(items[0])
      case Err(e) => Err(e)
      case Ok(_) =>
        var rest := UniqueDrives(items[1..], osSerials);
        assert forall k :: 1 <= k < |items| ==> items[k] == items[1..][k - 1];
        if rest.Err? then rest
        else Ok((if IsUniqueDrive(items[0], osSerials) then [items[0]] else []) + rest.value)
  }

  /** When no entry throws, the drives kept are those the filter selects,
      in their order. */
  lemma {:induction false} UniqueDrivesSelect(items: seq<Value>, osSerials: set<string>)
    requires UniqueDrives(items, osSerials).Ok?
    ensures UniqueDrives(items, osSerials).value == Filter(items, (item: Value) => IsUniqueDrive(item, osSerials))
  {
    if items != [] {
      UniqueDrivesSelect(items[1..], osSerials);
    }
  }

  function OsSerials(d: Value): Result<set<string>, string> {
    var os := Field(d, "OS_SSD");
    if os.Arr? then TrimmedSerials(os.items) else Ok({})
  }

  /** The consolidated E1.S tile, present when the list is a non-empty array
      and some drive remains. */
  function E1sTiles(d: Value): Result<seq<Tile>, string> {
    var e1s := Field(d, "E1.S_SSD");
    if !(e1s.Arr? && |e1s.items| > 0) then Ok([])
    else
      match OsSerials(d)
      case Err(e) => Err(e)
      case Ok(serials) =>
        match UniqueDrives(e1s.items, serials)
        case Err(e) => Err(e)
        case Ok(unique) => Ok(if |unique| > 0 then [E1sTile(unique)] else [])
  }

  /** The E1.S tile holds exactly the drives whose trimmed SN is valid and
      not listed under OS_SSD, in their order; with none left there is no
      tile. */
  lemma E1sSelection(d: Value)
    requires E1sTiles(d).Ok? && Field(d, "E1.S_SSD").Arr?
    requires OsSerials(d).Ok?
    ensures var kept := Filter(Field(d, "E1.S_SSD").items, (item: Value) => IsUniqueDrive(item, OsSerials(d).value));
      E1sTiles(d).value == if kept == [] then [] else [E1sTile(kept)]
  {
    var e1s := Field(d, "E1.S_SSD");
    if |e1s.items| > 0 {
      UniqueDrivesSelect(e1s.items, OsSerials(d).value);
    }
  }

  // ---------------------------------------------------------------- ConnectX

  /** `d.ConnectX_Module.filter(mod => isValid(mod.SN) || isValid(mod.PN))` */
  function ModulesWithPart(mods: seq<Value>): (r: Result<seq<Value>, string>)
    ensures r.Ok? ==> r.value == Filter(mods, HasPart)
    ensures r.Err? <==> exists k :: 0 <= k < |mods| && IsNullish(mods[k])
  {
    if mods == [] then Ok([])
    else if IsNullish(mods[0]) then Err(NullAccess)
    else
      var rest := ModulesWithPart(mods[1..]);
      if rest.Err? then
        assert exists k :: 0 <= k < |mods| && IsNullish(mods[k]) by {
          var k :| 0 <= k < |mods[1..]| && IsNullish(mods[1..][k]);
          assert mods[k + 1] == mods[1..][k];
        }
        rest
      else
        assert forall k :: 1 <= k < |mods| ==> mods[k] == mods[1..][k - 1];
        Ok((if HasPart(mods[0]) then [mods[0]] else []) + rest.value)
  }

  /** Rendering a module reads `sub.POSITION` of each entry of its
      `ConnectX` array, which throws on a null entry. */
  predicate HasNullSubModule(mod: Value) {
    var subs := Field(mod, "ConnectX");
    subs.Arr? && exists k :: 0 <= k < |subs.items| && IsNullish(subs.items[k])
  }

  /** The heading of a module: "Left Module", "Right Module", or "Module "
      followed by the position when it is truthy. */
  function ModuleHeading(mod: Value): (r: string)
    ensures AtPosition(mod, "L") ==> r == "Left Module"
    ensures AtPosition(mod, "R") ==> r == "Right Module"
    ensures !AtPosition(mod, "L") && !AtPosition(mod, "R") ==> StartsWith(r, "Module ")
    ensures !AtPosition(mod, "L") && !AtPosition(mod, "R") && Truthy(Field(mod, "POSITION")) ==>
      r[|"Module "|..] == StringForm(Field(mod, "POSITION"))
    ensures !AtPosition(mod, "L") && !AtPosition(mod, "R") && !Truthy(Field(mod, "POSITION")) ==>
      r == "Module "
  {
    var pos := Field(mod, "POSITION");
    if pos == Str("L") then "Left Module"
    else if pos == Str("R") then "Right Module"
    else "Module " + (if Truthy(pos) then StringForm(pos) else "")
  }

  function ConnectXTiles(d: Value): Result<seq<Tile>, string> {
    var cx := Field(d, "ConnectX_Module");
    if !cx.Arr? then Ok([])
    else
      match ModulesWithPart(cx.items)
      case Err(e) => Err(e)
      case Ok(mods) =>
        if |mods| == 0 then Ok([])
        else if exists k :: 0 <= k < |mods| && HasNullSubModule(mods[k]) then Err(NullAccess)
        else Ok([ConnectXTile(mods)])
  }

  // ---------------------------------------------------------------- sections

  function PbrTiles(d: Value): seq<Tile> {
    if IsValid(Field(d, "PBR_NO")) || IsValid(Field(d, "Chassis_Part_Number")) then
      [PbrTile(Field(d, "PBR_NO"), Field(d, "Chassis_Part_Number"), Field(d, "REV"))]
    else []
  }

  /** `sections` after all the blocks, in the order of the source. */
  function Sections(d: Value): Result<seq<Tile>, string> {
    var r0 := Ok(PbrTiles(d));
    var r1 := Then(r0, ListTiles(d, "SMM_Board", "SMM Module"));
    var r2 := Then(r1, ListTiles(d, "Button_Board", "Button Board"));
    var r3 := Then(r2, HpmTiles(d));
    var r4 := Then(r3, ListTiles(d, "SMM_Interposer", "SMM Interposer"));
    var r5 := Then(r4, ListTiles(d, "OS_SSD", "OS SSD"));
    var r6 := Then(r5, ListTiles(d, "PDB", "PDB"));
    var r7 := Then(r6, ListTiles(d, "Midplane", "Midplane"));
    var r8 := Then(r7, ListTiles(d, "HMC_Module", "HMC Module"));
    var r9 := Then(r8, ListTiles(d, "TPM", "TPM"));
    var r10 := Then(r9, E1sTiles(d));
    var r11 := Then(r10, ListTiles(d, "DPU_Board", "DPU Board (BF4)"));
    Then(r11, ConnectXTiles(d))
  }

  /** The component: nothing without a truthy `data.DATA`, the placeholder
      when no block produced a tile, and the grid otherwise. */
  function Render(data: Value): (r: Result<View, string>)
    ensures !Truthy(Field(data, "DATA")) ==> r == Ok(Nothing)
    ensures Truthy(Field(data, "DATA")) ==> (r.Ok? <==> Sections(Field(data, "DATA")).Ok?)
    ensures r == Ok(Placeholder) <==> Truthy(Field(data, "DATA")) && Sections(Field(data, "DATA")) == Ok([])
    ensures r.Ok? && r.value.Grid? ==> r.value.tiles != [] && Sections(Field(data, "DATA")) == Ok(r.value.tiles)
  {
    var d := Field(data, "DATA");
    if !Truthy(d) then Ok(Nothing)
    else
      match Sections(d)
      case Err(e) => Err(e)
      case Ok(tiles) => Ok(if tiles == [] then Placeholder else Grid(tiles))
  }

  /** With the PBR number valid, the PBR tile comes first. */
  lemma PbrFirst(d: Value)
    requires IsValid(Field(d, "PBR_NO")) && Sections(d).Ok?
    ensures Sections(d).value != [] && Sections(d).value[0] == PbrTile(Field(d, "PBR_NO"), Field(d, "Chassis_Part_Number"), Field(d, "REV"))
  {
  }

  // ----------------------------------------------- the imperative section list

  /** `list.forEach(...)` pushing onto `sections`. */
  method PushItems(sections: seq<Tile>, items: seq<Value>, key: string, title: string, earnsTile: Value -> bool)
    returns (r: Result<seq<Tile>, string>)
    ensures r == Then(Ok(sections), ItemTiles(items, key, title, earnsTile))
  {
    var acc := sections;
    var i := 0;
    while i < |items|
      invariant 0 <= i <= |items|
      invariant ItemTiles(items[..i], key, title, earnsTile).Ok?
      invariant acc == sections + ItemTiles(items[..i], key, title, earnsTile).value
    {
      assert items[..i + 1][..i] == items[..i];
      if IsNullish(items[i]) {
        assert items[..i + 1][i] == items[i];
        PrefixErr(items, i + 1, key, title, earnsTile);
        return Err(NullAccess);
      }
      if earnsTile(items[i]) {
        acc := acc + [ItemTile(key, title, i, items[i])];
      }
      i := i + 1;
    }
    assert items[..i] == items;
    return Ok(acc);
  }

  /** Once a prefix throws, so does the whole list, with the same error. */
  lemma {:induction false} PrefixErr(items: seq<Value>, n: nat, key: string, title: string, earnsTile: Value -> bool)
    requires n <= |items| && ItemTiles(items[..n], key, title, earnsTile).Err?
    ensures ItemTiles(items, key, title, earnsTile) == ItemTiles(items[..n], key, title, earnsTile)
    decreases |items| - n
  {
    if n < |items| {
      var m := |items| - 1;
      assert items[..m][..n] == items[..n];
      PrefixErr(items[..m], n, key, title, earnsTile);
      assert items[..|items|] == items;
    } else {
      assert items[..n] == items;
    }
  }

  /** `renderListSection(key, title, ...)`: the entries of `d[key]` when it
      is an array, nothing otherwise; a block that already threw stays
      thrown. */
  method PushList(sections: Result<seq<Tile>, string>, d: Value, key: string, title: string)
    returns (r: Result<seq<Tile>, string>)
    ensures r == Then(sections, ListTiles(d, key, title))
  {
    if sections.Err? {
      return sections;
    }
    var list := Field(d, key);
    if list.Arr? {
      r := PushItems(sections.value, list.items, key, title, HasPart);
    } else {
      assert sections.value + [] == sections.value;
      r := sections;
    }
  }

  /** The body of `ConfigurationView` up to the final `if`: the blocks run
      in order, each pushing its tiles, and the first throw ends the
      render. */
  method BuildSections(d: Value) returns (r: Result<seq<Tile>, string>)
    ensures r == Sections(d)
  {
    var sections: seq<Tile> := [];
    var pbrNo, productPn := Field(d, "PBR_NO"), Field(d, "Chassis_Part_Number");
    if IsValid(pbrNo) || IsValid(productPn) {
      sections := sections + [PbrTile(pbrNo, productPn, Field(d, "REV"))];
    }
    assert sections == PbrTiles(d);
    r := Ok(sections);
    r := PushList(r, d, "SMM_Board", "SMM Module");
    r := PushList(r, d, "Button_Board", "Button Board");
    r := Then(r, HpmTiles(d));
    r := PushList(r, d, "SMM_Interposer", "SMM Interposer");
    r := PushList(r, d, "OS_SSD", "OS SSD");
    r := PushList(r, d, "PDB", "PDB");
    r := PushList(r, d, "Midplane", "Midplane");
    r := PushList(r, d, "HMC_Module", "HMC Module");
    r := PushList(r, d, "TPM", "TPM");
    r := Then(r, E1sTiles(d));
    r := PushList(r, d, "DPU_Board", "DPU Board (BF4)");
    r := Then(r, ConnectXTiles(d));
  }
}
