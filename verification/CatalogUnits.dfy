/** Unit profile of a catalog item over create, batch, scan and update.

    The smart-unit resolution of a name is an input: the guarantees hold for every resolution. */
module CatalogUnits {
  import opened Decimals
  import opened Options

  datatype UnitKind = Kg | Box | Piece | Bag | Tin

  datatype Profile = Profile(unit: Option<UnitKind>, kgPerBag: Option<real>, itemsPerBox: Option<real>, weightPerTin: Option<real>,
                             packageType: Option<string>, stockUnit: Option<string>)

  /** What resolving the item name yields, as far as the profile is concerned. */
  datatype Resolution = Resolution(sellsBags: bool, measuredInKg: bool, size: Option<real>,
                                   packageType: Option<string>, stockUnit: Option<string>)

  /** The amounts of a create request; `kgInName` is the positive weight found in the item name. */
  datatype NewItem = NewItem(unit: UnitKind, kgPerBag: Option<real>, itemsPerBox: Option<real>, weightPerTin: Option<real>,
                             kgInName: Option<real>)

  /** A key of a PATCH body: absent, or present with a value that may be null. */
  datatype Field<T> = Absent | Given(value: T)

  datatype Patch = Patch(unit: Field<Option<UnitKind>>, kgPerBag: Field<Option<real>>, itemsPerBox: Field<Option<real>>,
                         weightPerTin: Field<Option<real>>, nameOrCategory: bool)

  // ----- request validation -----

  predicate PositiveIfSet(amount: Option<real>) {
    amount.Some? ==> amount.value > 0.0
  }

  predicate FieldPositive(f: Field<Option<real>>) {
    f.Given? ==> PositiveIfSet(f.value)
  }

  predicate AmountsAccepted(n: NewItem) {
    PositiveIfSet(n.kgPerBag) && PositiveIfSet(n.itemsPerBox) && PositiveIfSet(n.weightPerTin)
  }

  predicate PatchAccepted(p: Patch) {
    FieldPositive(p.kgPerBag) && FieldPositive(p.itemsPerBox) && FieldPositive(p.weightPerTin)
  }

  // ----- building blocks -----

  function CoerceItemsPerBox(amount: Option<real>): real {
    if amount.Some? && amount.value > 0.0 then amount.value else 1.0
  }

  /** The resolution replaces the stock fields, and fills a missing (or zero) weight per bag when it
      takes the name for a bag sold by the kilogram, whatever the unit of the item is. */
  function Merged(p: Profile, r: Resolution): Profile {
    var filled := p.(packageType := r.packageType, stockUnit := r.stockUnit);
    if r.sellsBags && r.measuredInKg && r.size.Some? && (p.kgPerBag.None? || p.kgPerBag.value == 0.0)
    then filled.(kgPerBag := r.size) else filled
  }

  /** Amounts that do not belong to the unit are cleared. */
  function SyncedExtras(p: Profile): Profile {
    p.(kgPerBag := if p.unit == Some(Bag) then p.kgPerBag else None,
       itemsPerBox := if p.unit == Some(Box) then p.itemsPerBox else None,
       weightPerTin := if p.unit == Some(Tin) then p.weightPerTin else None)
  }

  function SyncedStockFields(p: Profile): Profile {
    match p.unit
    case Some(Box) => p.(packageType := Some("BOX"), stockUnit := Some("BOX"))
    case Some(Bag) => p.(packageType := Some("SACK"), stockUnit := Some("KG"))
    case Some(Kg) => p.(packageType := Some("LOOSE"), stockUnit := Some("KG"))
    case Some(Tin) => p.(packageType := Some("TIN"), stockUnit := Some("TIN"))
    case _ => p
  }

  /** Columns keep three decimals. */
  function StoredAmount(amount: Option<real>): Option<real> {
    if amount.None? then None else Some(Round(amount.value * 1000.0) as real / 1000.0)
  }

  function Stored(p: Profile): Profile {
    p.(kgPerBag := StoredAmount(p.kgPerBag), itemsPerBox := StoredAmount(p.itemsPerBox), weightPerTin := StoredAmount(p.weightPerTin))
  }

  // ----- create, batch, scan -----

  function OnlyFor(wanted: bool, amount: Option<real>): Option<real> {
    if wanted then amount else None
  }

  datatype Creation = Create | Batch | Scan

  /** The weight per bag of the request; create also looks for one in the name of a bag. */
  function RequestedKg(how: Creation, n: NewItem): Option<real> {
    if how == Create && n.unit == Bag && n.kgPerBag.None? then n.kgInName else n.kgPerBag
  }

  /** The row before resolution.  A scan request carries no items per box and no weight per tin, and
      only create keeps a weight for pieces. */
  function NewProfile(how: Creation, n: NewItem): Profile {
    Profile(Some(n.unit),
            OnlyFor(n.unit == Bag || (how == Create && n.unit == Piece), RequestedKg(how, n)),
            OnlyFor(how != Scan && n.unit == Box, Some(CoerceItemsPerBox(n.itemsPerBox))),
            OnlyFor(how != Scan && n.unit == Tin, n.weightPerTin), None, None)
  }

  /** A new item, or `None` when the request is refused. */
  function Created(how: Creation, n: NewItem, r: Resolution): Option<Profile> {
    if !(if how == Scan then PositiveIfSet(n.kgPerBag) else AmountsAccepted(n)) then None
    else if n.unit == Bag && RequestedKg(how, n).None? then None
    else Some(Stored(Merged(NewProfile(how, n), r)))
  }

  // ----- update -----

  predicate UnitTouched(patch: Patch) {
    patch.unit.Given? || patch.kgPerBag.Given? || patch.itemsPerBox.Given? || patch.weightPerTin.Given?
  }

  /** What validation makes of an accepted body: naming the unit box without items per box counts as giving
      one item per box. */
  function Completed(patch: Patch): Patch {
    if patch.unit == Given(Some(Box)) && !(patch.itemsPerBox.Given? && PositiveSet(patch.itemsPerBox.value))
    then patch.(itemsPerBox := Given(Some(1.0))) else patch
  }

  /** The edits of a patch, before validation. */
  function Edited(p: Profile, patch: Patch): Profile {
    var u := if patch.unit.Given? then SyncedExtras(p.(unit := patch.unit.value)) else p;
    var kg := if patch.kgPerBag.Given? then u.(kgPerBag := OnlyFor(u.unit == Some(Bag), patch.kgPerBag.value)) else u;
    var box := if patch.itemsPerBox.Given?
               then kg.(itemsPerBox := OnlyFor(kg.unit == Some(Box), Some(CoerceItemsPerBox(patch.itemsPerBox.value)))) else kg;
    var tin := if patch.weightPerTin.Given? then box.(weightPerTin := OnlyFor(box.unit == Some(Tin), patch.weightPerTin.value)) else box;
    SyncedExtras(tin)
  }

  predicate PositiveSet(amount: Option<real>) {
    amount.Some? && amount.value > 0.0
  }

  /** Validation of an edit that touches units; a box without items per box is given one. */
  function Validated(p: Profile): Option<Profile> {
    match p.unit
    case Some(Bag) => if PositiveSet(p.kgPerBag) then Some(p) else None
    case Some(Box) => Some(SyncedStockFields(if PositiveSet(p.itemsPerBox) then p else p.(itemsPerBox := Some(1.0))))
    case Some(Tin) => if PositiveIfSet(p.weightPerTin) then Some(p) else None
    case _ => Some(p)
  }

  /** What an accepted edit becomes once the name has been resolved again. */
  function Settled(checked: Profile, patch: Patch, r: Resolution): Profile {
    if !UnitTouched(patch) && !patch.nameOrCategory then checked
    else
      var merged := SyncedExtras(Merged(checked, r));
      if patch.unit.Given? then SyncedStockFields(merged) else merged
  }

  /** A PATCH on an item; `None` when it is refused and the row stays as it is. */
  function Updated(p: Profile, patch: Patch, r: Resolution): Option<Profile> {
    var edited := Edited(p, Completed(patch));
    var checked := if UnitTouched(patch) then Validated(edited) else Some(edited);
    if !PatchAccepted(patch) || checked.None? then None
    else Some(Stored(Settled(checked.value, patch, r)))
  }

  /** The same update as the handler performs it, field by field on the loaded row. */
  class CatalogItem {
    var unit: Option<UnitKind>
    var kgPerBag: Option<real>
    var itemsPerBox: Option<real>
    var weightPerTin: Option<real>
    var packageType: Option<string>
    var stockUnit: Option<string>

    function View(): Profile
      reads this
    {
      Profile(unit, kgPerBag, itemsPerBox, weightPerTin, packageType, stockUnit)
    }

    constructor (p: Profile)
      ensures View() == p
    {
      unit, kgPerBag, itemsPerBox, weightPerTin := p.unit, p.kgPerBag, p.itemsPerBox, p.weightPerTin;
      packageType, stockUnit := p.packageType, p.stockUnit;
    }

    method Load(p: Profile)
      modifies this
      ensures View() == p
    {
      unit, kgPerBag, itemsPerBox, weightPerTin := p.unit, p.kgPerBag, p.itemsPerBox, p.weightPerTin;
      packageType, stockUnit := p.packageType, p.stockUnit;
    }

    method SyncExtras()
      modifies this
      ensures View() == SyncedExtras(old(View()))
    {
      if unit != Some(Bag) {
        kgPerBag := None;
      }
      if unit != Some(Box) {
        itemsPerBox := None;
      }
      if unit != Some(Tin) {
        weightPerTin := None;
      }
    }

    method Edit(patch: Patch)
      modifies this
      ensures View() == Edited(old(View()), patch)
    {
      if patch.unit.Given? {
        unit := patch.unit.value;
        SyncExtras();
      }
      if patch.kgPerBag.Given? {
        kgPerBag := if unit == Some(Bag) then patch.kgPerBag.value else None;
      }
      if patch.itemsPerBox.Given? {
        itemsPerBox := if unit == Some(Box) then Some(CoerceItemsPerBox(patch.itemsPerBox.value)) else None;
      }
      if patch.weightPerTin.Given? {
        weightPerTin := if unit == Some(Tin) then patch.weightPerTin.value else None;
      }
      SyncExtras();
    }

    method Validate() returns (ok: bool)
      modifies this
      ensures ok <==> Validated(old(View())).Some?
      ensures ok ==> View() == Validated(old(View())).value
    {
      match unit
      case Some(Bag) =>
        return PositiveSet(kgPerBag);
      case Some(Box) =>
        if !PositiveSet(itemsPerBox) {
          itemsPerBox := Some(1.0);
        }
        packageType, stockUnit := Some("BOX"), Some("BOX");
        return true;
      case Some(Tin) =>
        return PositiveIfSet(weightPerTin);
      case _ =>
        return true;
    }

    method Update(patch: Patch, r: Resolution) returns (ok: bool)
      modifies this
      ensures ok <==> Updated(old(View()), patch, r).Some?
      ensures View() == if ok then Updated(old(View()), patch, r).value else old(View())
    {
      var loaded := View();
      if !PatchAccepted(patch) {
        return false;
      }
      Edit(Completed(patch));
      if UnitTouched(patch) {
        var valid := Validate();
        if !valid {
          Load(loaded);
          return false;
        }
      }
      if UnitTouched(patch) || patch.nameOrCategory {
        Load(Merged(View(), r));
        SyncExtras();
        if patch.unit.Given? {
          Load(SyncedStockFields(View()));
        }
      }
      Load(Stored(View()));
      return true;
    }
  }

  // ----- guarantees -----

  /** Every amount sits with the unit it belongs to, and a bag has its weight. */
  ghost predicate AmountsMatchUnit(p: Profile) {
    && (p.unit == Some(Bag) ==> p.kgPerBag.Some?)
    && (p.itemsPerBox.Some? ==> p.unit == Some(Box))
    && (p.weightPerTin.Some? ==> p.unit == Some(Tin))
  }

  ghost predicate KgOnlyForBagOrPiece(p: Profile) {
    p.kgPerBag.Some? ==> p.unit == Some(Bag) || p.unit == Some(Piece)
  }

  ghost predicate AllPositive(p: Profile) {
    PositiveIfSet(p.kgPerBag) && PositiveIfSet(p.itemsPerBox) && PositiveIfSet(p.weightPerTin)
  }

  /** The resolution fills the weight per bag of an item that has none. */
  ghost predicate FillsKg(r: Resolution) {
    r.sellsBags && r.measuredInKg && r.size.Some?
  }

  lemma CreateMatchesUnit(how: Creation, n: NewItem, r: Resolution)
    ensures Created(how, n, r).Some? ==> AmountsMatchUnit(Created(how, n, r).value) && Created(how, n, r).value.unit == Some(n.unit)
  {
  }

  /** A new item stores the amount of its own unit: a bag the weight that was asked for, or the one in its
      name on create; a box its items, at least one, and a tin its weight, neither of which a scan carries. */
  lemma CreateStoresRequest(how: Creation, n: NewItem, r: Resolution)
    requires Created(how, n, r).Some?
    ensures var p := Created(how, n, r).value;
            && (n.unit == Bag && n.kgPerBag.Some? ==> p.kgPerBag == StoredAmount(n.kgPerBag))
            && (n.unit == Bag && n.kgPerBag.None? ==> how == Create && n.kgInName.Some?)
            && (n.unit == Box && how != Scan ==> p.itemsPerBox == StoredAmount(if n.itemsPerBox.Some? then n.itemsPerBox else Some(1.0)))
            && (n.unit == Tin && how != Scan ==> p.weightPerTin == StoredAmount(n.weightPerTin))
            && (how == Scan ==> p.itemsPerBox.None? && p.weightPerTin.None?)
  {
  }

  lemma EditTakesGiven(p: Profile, patch: Patch)
    ensures var q := Edited(p, patch);
            && q.unit == (if patch.unit.Given? then patch.unit.value else p.unit)
            && (q.unit == Some(Bag) && patch.kgPerBag.Given? ==> q.kgPerBag == patch.kgPerBag.value)
            && (q.unit == Some(Box) && patch.itemsPerBox.Given? ==> q.itemsPerBox == Some(CoerceItemsPerBox(patch.itemsPerBox.value)))
            && (q.unit == Some(Tin) && patch.weightPerTin.Given? ==> q.weightPerTin == patch.weightPerTin.value)
            && (q.unit == Some(Tin) && p.unit == q.unit && !patch.weightPerTin.Given? ==> q.weightPerTin == p.weightPerTin)
  {
  }

  /** Resolving the name again never changes the unit or an amount that the unit already has. */
  lemma SettledKeepsAmounts(checked: Profile, patch: Patch, r: Resolution)
    ensures var q := Settled(checked, patch, r);
            && q.unit == checked.unit
            && (q.unit == Some(Bag) && PositiveSet(checked.kgPerBag) ==> q.kgPerBag == checked.kgPerBag)
            && (q.unit == Some(Box) ==> q.itemsPerBox == checked.itemsPerBox)
            && (q.unit == Some(Tin) ==> q.weightPerTin == checked.weightPerTin)
  {
  }

  /** The package and stock unit of an item of a unit; pieces and cleared units have none of their own. */
  ghost predicate StockFieldsOfUnit(p: Profile) {
    && (p.unit == Some(Box) ==> p.packageType == Some("BOX") && p.stockUnit == Some("BOX"))
    && (p.unit == Some(Bag) ==> p.packageType == Some("SACK") && p.stockUnit == Some("KG"))
    && (p.unit == Some(Kg) ==> p.packageType == Some("LOOSE") && p.stockUnit == Some("KG"))
    && (p.unit == Some(Tin) ==> p.packageType == Some("TIN") && p.stockUnit == Some("TIN"))
  }

  /** An accepted update stores the given unit and the given amount of that unit; a tin keeps a weight that is
      not mentioned.  When it names the unit, the stock fields are those of the unit, whatever the name
      resolves to. */
  lemma UpdateStoresGiven(p: Profile, patch: Patch, r: Resolution)
    requires Updated(p, patch, r).Some?
    ensures var q := Updated(p, patch, r).value;
            && q.unit == (if patch.unit.Given? then patch.unit.value else p.unit)
            && (q.unit == Some(Bag) && patch.kgPerBag.Given? ==> q.kgPerBag == StoredAmount(patch.kgPerBag.value))
            && (q.unit == Some(Box) && patch.itemsPerBox.Given? ==> q.itemsPerBox == StoredAmount(Some(CoerceItemsPerBox(patch.itemsPerBox.value))))
            && (q.unit == Some(Tin) && patch.weightPerTin.Given? ==> q.weightPerTin == StoredAmount(patch.weightPerTin.value))
            && (q.unit == Some(Tin) && p.unit == q.unit && !patch.weightPerTin.Given? ==> q.weightPerTin == StoredAmount(p.weightPerTin))
            && (patch.unit.Given? ==> StockFieldsOfUnit(q))
  {
    var edited := Edited(p, Completed(patch));
    EditTakesGiven(p, Completed(patch));
    SettledKeepsAmounts(if UnitTouched(patch) then Validated(edited).value else edited, patch, r);
  }

  /** The edit that carries the unit and the amounts of a create request. */
  function SameRequest(how: Creation, n: NewItem): Patch {
    Patch(Given(Some(n.unit)), Given(RequestedKg(how, n)), Given(n.itemsPerBox), Given(n.weightPerTin), false)
  }

  /** Create and edit agree: with the same unit and amounts both are accepted or neither is, and the unit and
      its amount come out the same, whatever the edited row held and whatever the two names resolve to. */
  lemma UpdateMatchesCreate(how: Creation, n: NewItem, r: Resolution, p: Profile, r': Resolution)
    requires how != Scan && PositiveIfSet(n.kgInName)
    ensures var c, q := Created(how, n, r), Updated(p, SameRequest(how, n), r');
            && (c.Some? <==> q.Some?)
            && (c.Some? ==> && q.value.unit == c.value.unit
                            && (n.unit == Bag ==> q.value.kgPerBag == c.value.kgPerBag)
                            && (n.unit == Box ==> q.value.itemsPerBox == c.value.itemsPerBox)
                            && (n.unit == Tin ==> q.value.weightPerTin == c.value.weightPerTin))
  {
    if Created(how, n, r).Some? {
      CreateStoresRequest(how, n, r);
      if Updated(p, SameRequest(how, n), r').Some? {
        UpdateStoresGiven(p, SameRequest(how, n), r');
      }
    }
  }

  /** A new item that is neither bag nor piece ends up with a weight per bag exactly when the resolution
      of its name fills one in; nothing clears it before the next update. */
  lemma CreateKgOnlyForBagOrPieceIff(how: Creation, n: NewItem, r: Resolution)
    ensures Created(how, n, r).Some? ==>
              (KgOnlyForBagOrPiece(Created(how, n, r).value) <==> n.unit == Bag || n.unit == Piece || !FillsKg(r))
  {
  }

  /** The claim that only bags and pieces carry a weight per bag fails for a tin whose name mentions
      kilograms. */
  lemma TinWithKgPerBag()
    ensures var p := Created(Create, NewItem(Tin, None, None, None, Some(15.0)), Resolution(true, true, Some(15.0), Some("SACK"), Some("KG")));
            p.Some? && p.value.unit == Some(Tin) && p.value.kgPerBag == Some(15.0)
  {
  }

  lemma EditKeepsMatch(p: Profile, patch: Patch)
    requires AmountsMatchUnit(p)
    ensures var edited := Edited(p, patch);
            && (edited.itemsPerBox.Some? ==> edited.unit == Some(Box)) && (edited.weightPerTin.Some? ==> edited.unit == Some(Tin))
            && (UnitTouched(patch) && Validated(edited).Some? ==> AmountsMatchUnit(Validated(edited).value))
            && (!UnitTouched(patch) ==> AmountsMatchUnit(edited))
  {
  }

  lemma SettledKeepsMatch(checked: Profile, patch: Patch, r: Resolution)
    requires AmountsMatchUnit(checked)
    ensures AmountsMatchUnit(Stored(Settled(checked, patch, r)))
  {
  }

  lemma UpdateKeepsMatch(p: Profile, patch: Patch, r: Resolution)
    requires AmountsMatchUnit(p)
    ensures Updated(p, patch, r).Some? ==> AmountsMatchUnit(Updated(p, patch, r).value)
  {
    if Updated(p, patch, r).Some? {
      var edited := Edited(p, Completed(patch));
      EditKeepsMatch(p, Completed(patch));
      SettledKeepsMatch(if UnitTouched(patch) then Validated(edited).value else edited, patch, r);
    }
  }

  /** Every accepted update leaves a weight per bag on bags only. */
  lemma UpdateClearsStrayKg(p: Profile, patch: Patch, r: Resolution)
    ensures Updated(p, patch, r).Some? ==> var q := Updated(p, patch, r).value; q.kgPerBag.Some? ==> q.unit == Some(Bag)
  {
  }

  /** When an accepted body is refused for its units: exactly when the item would end as a bag without a
      positive weight per bag, or as a tin that keeps a weight stored as zero. */
  lemma UpdateRefusedIff(p: Profile, patch: Patch, r: Resolution)
    requires PatchAccepted(patch)
    ensures var unit := if patch.unit.Given? then patch.unit.value else p.unit;
            Updated(p, patch, r).None?
            <==> UnitTouched(patch)
                 && (|| (unit == Some(Bag) && !(if patch.kgPerBag.Given? then patch.kgPerBag.value.Some? else PositiveSet(p.kgPerBag)))
                     || (unit == Some(Tin) && !patch.weightPerTin.Given? && !PositiveIfSet(p.weightPerTin)))
  {
  }

  lemma StoredIsPositiveIff(x: real)
    requires x > 0.0
    ensures StoredAmount(Some(x)).value > 0.0 <==> x >= 0.0005
  {
  }

  /** After an update that touches units a box has its items per box; the stored number is positive
      exactly when the accepted one does not round to zero. */
  lemma BoxUpdateHasItemsPerBox(p: Profile, patch: Patch, r: Resolution)
    requires Updated(p, patch, r).Some? && UnitTouched(patch) && Updated(p, patch, r).value.unit == Some(Box)
    ensures var q, edited := Updated(p, patch, r).value, Edited(p, Completed(patch)).itemsPerBox;
            && q.itemsPerBox.Some?
            && (PositiveSet(q.itemsPerBox) <==> !PositiveSet(edited) || edited.value >= 0.0005)
  {
  }

  /** A box keeps items per box that an update does not mention if and only if the update does not name the
      unit either, or there was one item per box: naming a box a box resets it to one. */
  lemma UpdateKeepsBoxCountIff(p: Profile, patch: Patch, r: Resolution)
    requires Updated(p, patch, r).Some? && Updated(p, patch, r).value.unit == Some(Box)
    requires p.unit == Some(Box) && PositiveSet(p.itemsPerBox) && !patch.itemsPerBox.Given?
    ensures Updated(p, patch, r).value.itemsPerBox == StoredAmount(p.itemsPerBox)
            <==> !patch.unit.Given? || StoredAmount(p.itemsPerBox) == Some(1.0)
  {
    UpdatedBox(p, patch, r);
  }

  lemma UpdatedBox(p: Profile, patch: Patch, r: Resolution)
    requires Updated(p, patch, r).Some? && Updated(p, patch, r).value.unit == Some(Box)
    requires p.unit == Some(Box) && PositiveSet(p.itemsPerBox) && !patch.itemsPerBox.Given?
    ensures Updated(p, patch, r).value.itemsPerBox == StoredAmount(if patch.unit.Given? then Some(1.0) else p.itemsPerBox)
    ensures StoredAmount(Some(1.0)) == Some(1.0)
  {
  }

  // ----- when a bag has a positive weight -----

  ghost predicate BagIsPositive(p: Profile) {
    p.unit == Some(Bag) ==> PositiveSet(p.kgPerBag)
  }

  /** A weight as the column can hold it: positive means at least half a thousandth. */
  ghost predicate WeightIsStored(p: Profile) {
    PositiveSet(p.kgPerBag) ==> p.kgPerBag.value >= 0.0005
  }

  /** A new bag has a positive weight if and only if the weight asked for, or found in its name, is at least
      half a thousandth. */
  lemma CreatedBagIsPositiveIff(how: Creation, n: NewItem, r: Resolution)
    requires Created(how, n, r).Some? && n.unit == Bag && PositiveIfSet(n.kgInName)
    ensures RequestedKg(how, n).Some?
    ensures BagIsPositive(Created(how, n, r).value) <==> RequestedKg(how, n).value >= 0.0005
  {
    if RequestedKg(how, n).Some? {
      StoredIsPositiveIff(RequestedKg(how, n).value);
    }
  }

  lemma StoredWeightIsStored(p: Profile)
    ensures WeightIsStored(Stored(p))
  {
  }

  /** An accepted update that ends as a bag leaves a positive weight if and only if a weight it gives is at
      least half a thousandth. */
  lemma UpdatedBagIsPositiveIff(p: Profile, patch: Patch, r: Resolution)
    requires WeightIsStored(p) && BagIsPositive(p)
    requires Updated(p, patch, r).Some? && Updated(p, patch, r).value.unit == Some(Bag)
    ensures patch.kgPerBag.Given? ==> patch.kgPerBag.value.Some?
    ensures BagIsPositive(Updated(p, patch, r).value) <==> (patch.kgPerBag.Given? ==> patch.kgPerBag.value.value >= 0.0005)
  {
    var edited := Edited(p, Completed(patch));
    EditTakesGiven(p, Completed(patch));
    SettledKeepsAmounts(if UnitTouched(patch) then Validated(edited).value else edited, patch, r);
    if !patch.kgPerBag.Given? {
      EditedBag(p, patch);
    }
  }

  lemma EditedBag(p: Profile, patch: Patch)
    requires !patch.kgPerBag.Given? && Edited(p, Completed(patch)).unit == Some(Bag)
    ensures Edited(p, Completed(patch)).kgPerBag == p.kgPerBag
  {
  }

  // ----- runs -----

  /** A created item after the first n updates; refused updates change nothing. */
  ghost function AfterUpdates(p: Profile, updates: seq<(Patch, Resolution)>, n: nat): Profile
    requires n <= |updates|
  {
    if n == 0 then p else AfterUpdate(AfterUpdates(p, updates, n - 1), updates[n - 1].0, updates[n - 1].1)
  }

  ghost function AfterUpdate(p: Profile, patch: Patch, r: Resolution): Profile {
    if Updated(p, patch, r).Some? then Updated(p, patch, r).value else p
  }

  /** Over every run of a create, batch or scan and any updates, amounts stay with their unit and bags
      keep a weight; from the first accepted update on, a weight per bag means a bag. */
  lemma {:induction false} RunKeepsProfile(how: Creation, item: NewItem, r: Resolution, updates: seq<(Patch, Resolution)>, n: nat)
    requires Created(how, item, r).Some? && n <= |updates|
    ensures var start := Created(how, item, r).value;
            var p := AfterUpdates(start, updates, n);
            && AmountsMatchUnit(p)
            && (p == start || (p.kgPerBag.Some? ==> p.unit == Some(Bag)))
  {
    CreateMatchesUnit(how, item, r);
    if n > 0 {
      RunKeepsProfile(how, item, r, updates, n - 1);
      var before := AfterUpdates(Created(how, item, r).value, updates, n - 1);
      UpdateKeepsMatch(before, updates[n - 1].0, updates[n - 1].1);
      UpdateClearsStrayKg(before, updates[n - 1].0, updates[n - 1].1);
    }
  }

  /** Whenever the item is a bag during the first n updates, its weight is positive. */
  ghost predicate AlwaysPositive(start: Profile, updates: seq<(Patch, Resolution)>, n: nat)
    requires n <= |updates|
  {
    if n == 0 then BagIsPositive(start)
    else AlwaysPositive(start, updates, n - 1) && BagIsPositive(AfterUpdates(start, updates, n))
  }

  /** No accepted update of the first n that ends as a bag gives a weight below half a thousandth. */
  ghost predicate NoTinyWeight(start: Profile, updates: seq<(Patch, Resolution)>, n: nat)
    requires n <= |updates|
  {
    n == 0
    || (NoTinyWeight(start, updates, n - 1)
        && !GivesTinyWeight(AfterUpdates(start, updates, n - 1), updates[n - 1].0, updates[n - 1].1))
  }

  ghost predicate GivesTinyWeight(p: Profile, patch: Patch, r: Resolution) {
    && Updated(p, patch, r).Some? && Updated(p, patch, r).value.unit == Some(Bag)
    && patch.kgPerBag.Given? && patch.kgPerBag.value.Some? && patch.kgPerBag.value.value < 0.0005
  }

  lemma {:induction false} UpdatesKeepBagsPositiveIff(start: Profile, updates: seq<(Patch, Resolution)>, n: nat)
    requires n <= |updates| && BagIsPositive(start) && WeightIsStored(start)
    ensures AlwaysPositive(start, updates, n) <==> NoTinyWeight(start, updates, n)
    ensures WeightIsStored(AfterUpdates(start, updates, n))
    ensures AlwaysPositive(start, updates, n) ==> BagIsPositive(AfterUpdates(start, updates, n))
  {
    if n > 0 {
      UpdatesKeepBagsPositiveIff(start, updates, n - 1);
      UpdateStep(AfterUpdates(start, updates, n - 1), updates[n - 1].0, updates[n - 1].1);
    }
  }

  lemma UpdateStep(p: Profile, patch: Patch, r: Resolution)
    requires WeightIsStored(p)
    ensures WeightIsStored(AfterUpdate(p, patch, r))
    ensures BagIsPositive(p) ==> (BagIsPositive(AfterUpdate(p, patch, r)) <==> !GivesTinyWeight(p, patch, r))
  {
    if Updated(p, patch, r).Some? {
      var edited := Edited(p, Completed(patch));
      StoredWeightIsStored(Settled(if UnitTouched(patch) then Validated(edited).value else edited, patch, r));
      if BagIsPositive(p) && Updated(p, patch, r).value.unit == Some(Bag) {
        UpdatedBagIsPositiveIff(p, patch, r);
      }
    }
  }

  /** Over every run, the item has a positive weight whenever it is a bag, if and only if it was not created
      as a bag with a weight below half a thousandth and no accepted update gives a bag such a weight. */
  lemma {:induction false} RunKeepsBagsPositiveIff(how: Creation, item: NewItem, r: Resolution, updates: seq<(Patch, Resolution)>)
    requires Created(how, item, r).Some? && PositiveIfSet(item.kgInName)
    ensures var start := Created(how, item, r).value;
            && (item.unit == Bag ==> RequestedKg(how, item).Some?)
            && (AlwaysPositive(start, updates, |updates|)
                <==> (item.unit == Bag ==> RequestedKg(how, item).value >= 0.0005) && NoTinyWeight(start, updates, |updates|))
  {
    var start := Created(how, item, r).value;
    StoredWeightIsStored(Merged(NewProfile(how, item), r));
    if item.unit == Bag {
      CreatedBagIsPositiveIff(how, item, r);
    }
    if BagIsPositive(start) {
      UpdatesKeepBagsPositiveIff(start, updates, |updates|);
    } else {
      NeverPositive(start, updates, |updates|);
    }
  }

  lemma {:induction false} NeverPositive(start: Profile, updates: seq<(Patch, Resolution)>, n: nat)
    requires n <= |updates| && !BagIsPositive(start)
    ensures !AlwaysPositive(start, updates, n)
  {
    if n > 0 {
      NeverPositive(start, updates, n - 1);
    }
  }

  /** Amounts large enough to survive being stored with three decimals. */
  ghost predicate Storable(amount: Option<real>) {
    amount.Some? ==> amount.value >= 0.0005
  }

  ghost predicate StorablePatch(patch: Patch) {
    && (patch.kgPerBag.Given? ==> Storable(patch.kgPerBag.value))
    && (patch.itemsPerBox.Given? ==> Storable(patch.itemsPerBox.value))
    && (patch.weightPerTin.Given? ==> Storable(patch.weightPerTin.value))
  }

  ghost predicate AllStorable(p: Profile) {
    Storable(p.kgPerBag) && Storable(p.itemsPerBox) && Storable(p.weightPerTin)
  }

  lemma StoredAll(p: Profile)
    requires AllStorable(p)
    ensures AllStorable(Stored(p)) && AllPositive(Stored(p))
  {
  }

  lemma UpdateKeepsPositive(p: Profile, patch: Patch, r: Resolution)
    requires AllStorable(p) && StorablePatch(patch) && Storable(r.size)
    ensures Updated(p, patch, r).Some? ==> AllStorable(Updated(p, patch, r).value) && AllPositive(Updated(p, patch, r).value)
  {
    if Updated(p, patch, r).Some? {
      var edited := Edited(p, Completed(patch));
      var checked := if UnitTouched(patch) then Validated(edited).value else edited;
      EditStorable(p, Completed(patch));
      SettledStorable(checked, patch, r);
      StoredAll(Settled(checked, patch, r));
    }
  }

  lemma EditStorable(p: Profile, patch: Patch)
    requires AllStorable(p) && StorablePatch(patch)
    ensures AllStorable(Edited(p, patch))
    ensures Validated(Edited(p, patch)).Some? ==> AllStorable(Validated(Edited(p, patch)).value)
  {
  }

  lemma SettledStorable(checked: Profile, patch: Patch, r: Resolution)
    requires AllStorable(checked) && Storable(r.size)
    ensures AllStorable(Settled(checked, patch, r))
  {
  }

  /** When no amount in the run is below half a thousandth, every amount on the item, of whatever unit, is
      positive at every moment. */
  lemma {:induction false} RunKeepsPositive(how: Creation, item: NewItem, r: Resolution, updates: seq<(Patch, Resolution)>, n: nat)
    requires Created(how, item, r).Some? && n <= |updates|
    requires Storable(item.kgPerBag) && Storable(item.itemsPerBox) && Storable(item.weightPerTin) && Storable(item.kgInName) && Storable(r.size)
    requires forall k :: 0 <= k < |updates| ==> StorablePatch(updates[k].0) && Storable(updates[k].1.size)
    ensures var p := AfterUpdates(Created(how, item, r).value, updates, n);
            AllStorable(p) && AllPositive(p) && (p.unit == Some(Bag) ==> PositiveSet(p.kgPerBag))
  {
    if n == 0 {
      CreatePositive(how, item, r);
    } else {
      RunKeepsPositive(how, item, r, updates, n - 1);
      UpdateKeepsPositive(AfterUpdates(Created(how, item, r).value, updates, n - 1), updates[n - 1].0, updates[n - 1].1);
    }
    RunKeepsProfile(how, item, r, updates, n);
  }

  lemma CreatePositive(how: Creation, n: NewItem, r: Resolution)
    requires Created(how, n, r).Some?
    requires Storable(n.kgPerBag) && Storable(n.itemsPerBox) && Storable(n.weightPerTin) && Storable(n.kgInName) && Storable(r.size)
    ensures AllStorable(Created(how, n, r).value) && AllPositive(Created(how, n, r).value)
  {
    StoredAll(Merged(NewProfile(how, n), r));
  }

  /** A bag accepted with a tenth of a gram is stored with no weight at all. */
  lemma TinyBagStoredAsZero(r: Resolution)
    ensures var p := Created(Create, NewItem(Bag, Some(0.0001), None, None, None), r);
            p.Some? && p.value.unit == Some(Bag) && p.value.kgPerBag == Some(0.0)
  {
  }
}
