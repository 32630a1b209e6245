/** Brokers, suppliers and the links between them: the six handlers that write them.

    A supplier has at most one primary broker and any number of linked brokers.  Only the fields that
    the handlers' checks and links depend on are kept. */
module ContactLinks {
  import opened Lists
  import opened Numerals
  import opened Options
  import opened Texts

  datatype Broker = Broker(business: Uuid, name: string)

  datatype Supplier = Supplier(business: Uuid, name: string, primary: Option<Uuid>)

  datatype Link = Link(broker: Uuid, supplier: Uuid)

  datatype Contacts = Contacts(brokers: map<Uuid, Broker>, suppliers: map<Uuid, Supplier>, links: seq<Link>)

  datatype Outcome = Done | NotFound | NameTaken | Elsewhere(id: Uuid) | HasPurchases | AssignedToSuppliers

  // ----- checks -----

  predicate SupplierNameTaken(c: Contacts, business: Uuid, name: string, except: Option<Uuid>) {
    exists s :: s in c.suppliers && SameName(c.suppliers[s].business, c.suppliers[s].name, business, Strip(name)) && except != Some(s)
  }

  predicate BrokerNameTaken(c: Contacts, business: Uuid, name: string, except: Option<Uuid>) {
    exists b :: b in c.brokers && SameName(c.brokers[b].business, c.brokers[b].name, business, Strip(name)) && except != Some(b)
  }

  predicate SameName(business: Uuid, name: string, business': Uuid, name': string) {
    business == business' && Lower(name) == Lower(name')
  }

  predicate BrokerHere(c: Contacts, business: Uuid, b: Uuid) {
    b in c.brokers && c.brokers[b].business == business
  }

  predicate SupplierHere(c: Contacts, business: Uuid, s: Uuid) {
    s in c.suppliers && c.suppliers[s].business == business
  }

  /** The first of the first n brokers that is not one of the business. */
  function BrokerElsewhere(c: Contacts, business: Uuid, ids: seq<Uuid>, n: nat): Option<Uuid>
    requires n <= |ids|
  {
    if n == 0 then None
    else
      var earlier := BrokerElsewhere(c, business, ids, n - 1);
      if earlier.Some? || BrokerHere(c, business, ids[n - 1]) then earlier else Some(ids[n - 1])
  }

  function SupplierElsewhere(c: Contacts, business: Uuid, ids: seq<Uuid>, n: nat): Option<Uuid>
    requires n <= |ids|
  {
    if n == 0 then None
    else
      var earlier := SupplierElsewhere(c, business, ids, n - 1);
      if earlier.Some? || SupplierHere(c, business, ids[n - 1]) then earlier else Some(ids[n - 1])
  }

  // ----- links -----

  datatype Party = TheBroker(id: Uuid) | TheSupplier(id: Uuid)

  predicate Touches(l: Link, p: Party) {
    match p case TheBroker(id) => l.broker == id case TheSupplier(id) => l.supplier == id
  }

  /** The first n links without those of a party. */
  function Without(links: seq<Link>, p: Party, n: nat): seq<Link>
    requires n <= |links|
  {
    if n == 0 then []
    else Without(links, p, n - 1) + (if Touches(links[n - 1], p) then [] else [links[n - 1]])
  }

  function LinkOf(p: Party, other: Uuid): Link {
    match p case TheBroker(id) => Link(id, other) case TheSupplier(id) => Link(other, id)
  }

  /** One link of a party to each of the first n others. */
  function LinksOf(p: Party, others: seq<Uuid>, n: nat): seq<Link>
    requires n <= |others|
  {
    if n == 0 then [] else LinksOf(p, others, n - 1) + [LinkOf(p, others[n - 1])]
  }

  /** The brokers of a request: the single one goes first unless the list already has it. */
  function Merged(ids: seq<Uuid>, single: Option<Uuid>): seq<Uuid> {
    if single.Some? && single.value !in ids then Deduped([single.value] + ids, |ids| + 1) else Deduped(ids, |ids|)
  }

  function FirstOf(ids: seq<Uuid>): Option<Uuid> {
    if ids == [] then None else Some(ids[0])
  }

  function WithPrimary(suppliers: map<Uuid, Supplier>, ids: seq<Uuid>, b: Uuid, n: nat): map<Uuid, Supplier>
    requires n <= |ids|
  {
    if n == 0 then suppliers
    else
      var earlier := WithPrimary(suppliers, ids, b, n - 1);
      if ids[n - 1] in earlier then earlier[ids[n - 1] := earlier[ids[n - 1]].(primary := Some(b))] else earlier
  }

  // ----- the six handlers -----

  function CreatedSupplier(c: Contacts, business: Uuid, id: Uuid, name: string, ids: seq<Uuid>, single: Option<Uuid>): (Outcome, Contacts) {
    var merged := Merged(ids, single);
    var elsewhere := BrokerElsewhere(c, business, merged, |merged|);
    if SupplierNameTaken(c, business, name, None) then (NameTaken, c)
    else if elsewhere.Some? then (Elsewhere(elsewhere.value), c)
    else (Done, Contacts(c.brokers, c.suppliers[id := Supplier(business, Strip(name), FirstOf(merged))],
                         c.links + LinksOf(TheSupplier(id), merged, |merged|)))
  }

  /** Absent fields are those that the request leaves out; a broker field may be present and null. */
  function UpdatedSupplier(c: Contacts, business: Uuid, id: Uuid, name: Option<string>, ids: Option<seq<Uuid>>, single: Option<Option<Uuid>>)
    : (Outcome, Contacts)
  {
    if !SupplierHere(c, business, id) then (NotFound, c)
    else if name.Some? && SupplierNameTaken(c, business, name.value, Some(id)) then (NameTaken, c)
    else
      var s := if name.Some? then c.suppliers[id].(name := Strip(name.value)) else c.suppliers[id];
      if ids.None? && single.None? then (Done, c.(suppliers := c.suppliers[id := s]))
      else
        var merged := Merged(if ids.Some? then ids.value else [], if single.Some? then single.value else None);
        var elsewhere := BrokerElsewhere(c, business, merged, |merged|);
        if elsewhere.Some? then (Elsewhere(elsewhere.value), c)
        else (Done, Contacts(c.brokers, c.suppliers[id := s.(primary := FirstOf(merged))],
                             Without(c.links, TheSupplier(id), |c.links|) + LinksOf(TheSupplier(id), merged, |merged|)))
  }

  function DeletedSupplier(c: Contacts, business: Uuid, id: Uuid, purchases: nat): (Outcome, Contacts) {
    if !SupplierHere(c, business, id) then (NotFound, c)
    else if purchases > 0 then (HasPurchases, c)
    else (Done, Contacts(c.brokers, c.suppliers - {id}, Without(c.links, TheSupplier(id), |c.links|)))
  }

  function CreatedBroker(c: Contacts, business: Uuid, id: Uuid, name: string, ids: seq<Uuid>): (Outcome, Contacts) {
    var listed := Deduped(ids, |ids|);
    var elsewhere := SupplierElsewhere(c, business, listed, |listed|);
    if BrokerNameTaken(c, business, name, None) then (NameTaken, c)
    else if elsewhere.Some? then (Elsewhere(elsewhere.value), c)
    else (Done, Contacts(c.brokers[id := Broker(business, Strip(name))], WithPrimary(c.suppliers, listed, id, |listed|),
                         c.links + LinksOf(TheBroker(id), listed, |listed|)))
  }

  function UpdatedBroker(c: Contacts, business: Uuid, id: Uuid, name: Option<string>, ids: Option<seq<Uuid>>): (Outcome, Contacts) {
    if !BrokerHere(c, business, id) then (NotFound, c)
    else if name.Some? && BrokerNameTaken(c, business, name.value, Some(id)) then (NameTaken, c)
    else
      var brokers := if name.Some? then c.brokers[id := c.brokers[id].(name := Strip(name.value))] else c.brokers;
      if ids.None? then (Done, c.(brokers := brokers))
      else
        var listed := Deduped(ids.value, |ids.value|);
        var elsewhere := SupplierElsewhere(c, business, listed, |listed|);
        if elsewhere.Some? then (Elsewhere(elsewhere.value), c)
        else (Done, Contacts(brokers, WithPrimary(c.suppliers, listed, id, |listed|),
                             Without(c.links, TheBroker(id), |c.links|) + LinksOf(TheBroker(id), listed, |listed|)))
  }

  predicate Assigned(c: Contacts, business: Uuid, id: Uuid) {
    exists s :: s in c.suppliers && c.suppliers[s].business == business && c.suppliers[s].primary == Some(id)
  }

  function DeletedBroker(c: Contacts, business: Uuid, id: Uuid, purchases: nat): (Outcome, Contacts) {
    if !BrokerHere(c, business, id) then (NotFound, c)
    else if purchases > 0 then (HasPurchases, c)
    else if Assigned(c, business, id) then (AssignedToSuppliers, c)
    else (Done, Contacts(c.brokers - {id}, c.suppliers, Without(c.links, TheBroker(id), |c.links|)))
  }

  // ----- the tables -----

  class ContactBook {
    var brokers: map<Uuid, Broker>
    var suppliers: map<Uuid, Supplier>
    var links: seq<Link>

    ghost function All(): Contacts
      reads this
    {
      Contacts(brokers, suppliers, links)
    }

    constructor ()
      ensures All() == Contacts(map[], map[], [])
    {
      brokers, suppliers, links := map[], map[], [];
    }

    method CreateSupplier(business: Uuid, id: Uuid, name: string, ids: seq<Uuid>, single: Option<Uuid>) returns (outcome: Outcome)
      modifies this
      ensures (outcome, All()) == CreatedSupplier(old(All()), business, id, name, ids, single)
    {
      if SupplierNameTaken(Contacts(brokers, suppliers, links), business, name, None) {
        return NameTaken;
      }
      var merged := MergeBrokers(ids, single);
      var added := [];
      for n := 0 to |merged|
        invariant All() == old(All())
        invariant added == LinksOf(TheSupplier(id), merged, n) && BrokerElsewhere(All(), business, merged, n).None?
      {
        if !BrokerHere(Contacts(brokers, suppliers, links), business, merged[n]) {
          ElsewhereStays(All(), business, merged, n + 1, |merged|);
          return Elsewhere(merged[n]);
        }
        added := added + [Link(merged[n], id)];
      }
      suppliers := suppliers[id := Supplier(business, Strip(name), FirstOf(merged))];
      links := links + added;
      return Done;
    }

    method UpdateSupplier(business: Uuid, id: Uuid, name: Option<string>, ids: Option<seq<Uuid>>, single: Option<Option<Uuid>>)
      returns (outcome: Outcome)
      modifies this
      ensures (outcome, All()) == UpdatedSupplier(old(All()), business, id, name, ids, single)
    {
      var c := Contacts(brokers, suppliers, links);
      if !SupplierHere(c, business, id) {
        return NotFound;
      }
      if name.Some? && SupplierNameTaken(c, business, name.value, Some(id)) {
        return NameTaken;
      }
      var s := if name.Some? then suppliers[id].(name := Strip(name.value)) else suppliers[id];
      if ids.None? && single.None? {
        suppliers := suppliers[id := s];
        return Done;
      }
      var merged := MergeBrokers(if ids.Some? then ids.value else [], if single.Some? then single.value else None);
      var missing := BrokerElsewhere(c, business, merged, |merged|);
      if missing.Some? {
        return Elsewhere(missing.value);
      }
      links := RelinkParty(links, TheSupplier(id), merged);
      suppliers := suppliers[id := s.(primary := FirstOf(merged))];
      return Done;
    }

    method DeleteSupplier(business: Uuid, id: Uuid, purchases: nat) returns (outcome: Outcome)
      modifies this
      ensures (outcome, All()) == DeletedSupplier(old(All()), business, id, purchases)
    {
      if !SupplierHere(Contacts(brokers, suppliers, links), business, id) {
        return NotFound;
      }
      if purchases > 0 {
        return HasPurchases;
      }
      links := RelinkParty(links, TheSupplier(id), []);
      suppliers := suppliers - {id};
      return Done;
    }

    method CreateBroker(business: Uuid, id: Uuid, name: string, ids: seq<Uuid>) returns (outcome: Outcome)
      modifies this
      ensures (outcome, All()) == CreatedBroker(old(All()), business, id, name, ids)
    {
      if BrokerNameTaken(Contacts(brokers, suppliers, links), business, name, None) {
        return NameTaken;
      }
      var listed := Dedupe(ids);
      var added, moved := [], suppliers;
      for n := 0 to |listed|
        invariant All() == old(All())
        invariant added == LinksOf(TheBroker(id), listed, n) && SupplierElsewhere(All(), business, listed, n).None?
        invariant moved == WithPrimary(suppliers, listed, id, n) && moved.Keys == suppliers.Keys
      {
        if !SupplierHere(Contacts(brokers, suppliers, links), business, listed[n]) {
          SupplierElsewhereStays(All(), business, listed, n + 1, |listed|);
          return Elsewhere(listed[n]);
        }
        added := added + [Link(id, listed[n])];
        moved := moved[listed[n] := moved[listed[n]].(primary := Some(id))];
      }
      brokers := brokers[id := Broker(business, Strip(name))];
      suppliers, links := moved, links + added;
      return Done;
    }

    method UpdateBroker(business: Uuid, id: Uuid, name: Option<string>, ids: Option<seq<Uuid>>) returns (outcome: Outcome)
      modifies this
      ensures (outcome, All()) == UpdatedBroker(old(All()), business, id, name, ids)
    {
      var c := Contacts(brokers, suppliers, links);
      if !BrokerHere(c, business, id) {
        return NotFound;
      }
      if name.Some? && BrokerNameTaken(c, business, name.value, Some(id)) {
        return NameTaken;
      }
      if ids.Some? {
        var listed := Dedupe(ids.value);
        var missing := SupplierElsewhere(c, business, listed, |listed|);
        if missing.Some? {
          return Elsewhere(missing.value);
        }
        links := RelinkParty(links, TheBroker(id), listed);
        suppliers := MakePrimary(suppliers, listed, id);
      }
      if name.Some? {
        brokers := brokers[id := brokers[id].(name := Strip(name.value))];
      }
      return Done;
    }

    method DeleteBroker(business: Uuid, id: Uuid, purchases: nat) returns (outcome: Outcome)
      modifies this
      ensures (outcome, All()) == DeletedBroker(old(All()), business, id, purchases)
    {
      var c := Contacts(brokers, suppliers, links);
      if !BrokerHere(c, business, id) {
        return NotFound;
      }
      if purchases > 0 {
        return HasPurchases;
      }
      if Assigned(c, business, id) {
        return AssignedToSuppliers;
      }
      links := RelinkParty(links, TheBroker(id), []);
      brokers := brokers - {id};
      return Done;
    }

    static method MergeBrokers(ids: seq<Uuid>, single: Option<Uuid>) returns (merged: seq<Uuid>)
      ensures merged == Merged(ids, single)
    {
      var all := ids;
      if single.Some? && single.value !in all {
        all := [single.value] + all;
      }
      merged := Dedupe(all);
    }

    /** Deletes the links of a party and adds one to each of the others. */
    static method RelinkParty(links: seq<Link>, p: Party, others: seq<Uuid>) returns (linked: seq<Link>)
      ensures linked == Without(links, p, |links|) + LinksOf(p, others, |others|)
      ensures others == [] ==> linked == Without(links, p, |links|)
    {
      linked := [];
      for n := 0 to |links|
        invariant linked == Without(links, p, n)
      {
        if !Touches(links[n], p) {
          linked := linked + [links[n]];
        }
      }
      for n := 0 to |others|
        invariant linked == Without(links, p, |links|) + LinksOf(p, others, n)
      {
        linked := linked + [LinkOf(p, others[n])];
      }
    }

    static method MakePrimary(suppliers: map<Uuid, Supplier>, ids: seq<Uuid>, b: Uuid) returns (moved: map<Uuid, Supplier>)
      ensures moved == WithPrimary(suppliers, ids, b, |ids|)
    {
      moved := suppliers;
      for n := 0 to |ids|
        invariant moved == WithPrimary(suppliers, ids, b, n)
      {
        if ids[n] in moved {
          moved := moved[ids[n] := moved[ids[n]].(primary := Some(b))];
        }
      }
    }
  }

  lemma {:induction false} ElsewhereStays(c: Contacts, business: Uuid, ids: seq<Uuid>, n: nat, m: nat)
    requires n <= m <= |ids| && BrokerElsewhere(c, business, ids, n).Some?
    ensures BrokerElsewhere(c, business, ids, m) == BrokerElsewhere(c, business, ids, n)
  {
    if n < m {
      ElsewhereStays(c, business, ids, n, m - 1);
    }
  }

  lemma {:induction false} SupplierElsewhereStays(c: Contacts, business: Uuid, ids: seq<Uuid>, n: nat, m: nat)
    requires n <= m <= |ids| && SupplierElsewhere(c, business, ids, n).Some?
    ensures SupplierElsewhere(c, business, ids, m) == SupplierElsewhere(c, business, ids, n)
  {
    if n < m {
      SupplierElsewhereStays(c, business, ids, n, m - 1);
    }
  }
}
