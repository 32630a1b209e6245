/** What the name of an item contributes to its unit profile, and how amounts are stored. */
module CatalogUnitLaws {
  import opened CatalogUnits
  import opened Decimals
  import opened Options

  /** An amount is stored in whole thousandths, moved by at most half of one; storing it again changes nothing. */
  lemma StoredIsNear(x: real)
    ensures StoredAmount(Some(x)).Some? && StoredAmount(None).None?
    ensures var y := StoredAmount(Some(x)).value;
            && y * 1000.0 == (y * 1000.0).Floor as real && Abs(y - x) <= 0.0005
            && StoredAmount(Some(y)) == Some(y)
  {
    var n := Round(x * 1000.0);
    RoundError(x * 1000.0);
    var y := n as real / 1000.0;
    assert y * 1000.0 == n as real;
    RoundIsNearest(y * 1000.0, n);
  }

  /** The resolution of the name gives a weight to an item without one, or with a zero. */
  ghost function WeightFrom(asked: Option<real>, r: Resolution): Option<real> {
    if (asked.None? || asked == Some(0.0)) && r.sellsBags && r.measuredInKg && r.size.Some? then r.size else asked
  }

  /** A new item takes its package type and stock unit from its name.  Its weight per bag is the one asked for, if
      its unit keeps one: bags do, and pieces on create; on create a bag may take it from its name.  Failing that
      it comes from the resolution. */
  lemma NewItemIs(how: Creation, n: NewItem, r: Resolution)
    requires Created(how, n, r).Some?
    ensures var p := Created(how, n, r).value;
            var asked := if n.unit == Bag && how == Create && n.kgPerBag.None? then n.kgInName
                         else if n.unit == Bag || (n.unit == Piece && how == Create) then n.kgPerBag
                         else None;
            && p.packageType == r.packageType && p.stockUnit == r.stockUnit
            && p.kgPerBag == StoredAmount(WeightFrom(asked, r))
  {
  }

  /** What an accepted update does to package type and stock unit: naming a unit that has its own sets those; any
      other edit of units, of the name or of the category takes them from the name; else they stay. */
  lemma UpdatedStockFields(p: Profile, patch: Patch, r: Resolution)
    requires Updated(p, patch, r).Some?
    ensures var q := Updated(p, patch, r).value;
            var resolved := patch.unit.Given? || patch.kgPerBag.Given? || patch.itemsPerBox.Given? || patch.weightPerTin.Given? || patch.nameOrCategory;
            if patch.unit.Given? && patch.unit.value.Some? && patch.unit.value != Some(Piece) then StockFieldsOfUnit(q)
            else if resolved then q.packageType == r.packageType && q.stockUnit == r.stockUnit
            else q.packageType == p.packageType && q.stockUnit == p.stockUnit
  {
  }

  /** Renaming a bag keeps its weight, unless that was stored as zero: then the name supplies one if it can. */
  lemma RenamedBag(p: Profile, patch: Patch, r: Resolution)
    requires Updated(p, patch, r).Some? && p.unit == Some(Bag) && patch.nameOrCategory
    requires !patch.unit.Given? && !patch.kgPerBag.Given? && !patch.itemsPerBox.Given? && !patch.weightPerTin.Given?
    ensures Updated(p, patch, r).value.kgPerBag == StoredAmount(WeightFrom(p.kgPerBag, r))
  {
  }

  ghost predicate Positive(amount: Option<real>) {
    amount.None? || amount.value > 0.0
  }

  /** A new item is accepted exactly if no amount is zero or negative, and a bag has a weight, given or, on create,
      in its name; a scan carries a weight per bag only. */
  lemma CreateAcceptedIff(how: Creation, n: NewItem, r: Resolution)
    ensures Created(how, n, r).Some?
            <==> && Positive(n.kgPerBag) && (how != Scan ==> Positive(n.itemsPerBox) && Positive(n.weightPerTin))
                 && (n.unit == Bag ==> n.kgPerBag.Some? || (how == Create && n.kgInName.Some?))
  {
  }

  ghost predicate GivesPositive(f: Field<Option<real>>) {
    f.Given? ==> Positive(f.value)
  }

  /** An edit is accepted exactly if no amount that it gives is zero or negative and, if it touches units, the item
      does not end as a bag without a positive weight or as a tin that keeps a weight stored as zero. */
  lemma UpdateAcceptedIff(p: Profile, patch: Patch, r: Resolution)
    ensures var unit := if patch.unit.Given? then patch.unit.value else p.unit;
            var touched := patch.unit.Given? || patch.kgPerBag.Given? || patch.itemsPerBox.Given? || patch.weightPerTin.Given?;
            Updated(p, patch, r).Some?
            <==> && GivesPositive(patch.kgPerBag) && GivesPositive(patch.itemsPerBox) && GivesPositive(patch.weightPerTin)
                 && (touched && unit == Some(Bag) ==> if patch.kgPerBag.Given? then patch.kgPerBag.value.Some? else p.kgPerBag.Some? && p.kgPerBag.value > 0.0)
                 && (touched && unit == Some(Tin) && !patch.weightPerTin.Given? ==> Positive(p.weightPerTin))
  {
    if PatchAccepted(patch) {
      UpdateRefusedIff(p, patch, r);
    }
  }
}
