/** What the handlers of brokers and suppliers keep, over every run of them. */
module ContactLinksTheorems {
  import opened ContactLinks
  import opened Lists
  import opened Numerals
  import opened Options
  import opened Texts

  // ----- invariants -----

  predicate LinkOk(c: Contacts, l: Link) {
    && l.broker in c.brokers && l.supplier in c.suppliers
    && c.brokers[l.broker].business == c.suppliers[l.supplier].business
  }

  predicate PrimaryOk(c: Contacts, s: Uuid)
    requires s in c.suppliers
  {
    c.suppliers[s].primary.Some? ==> BrokerHere(c, c.suppliers[s].business, c.suppliers[s].primary.value)
  }

  /** The links are free of repetitions and join existing parties of one business, and every primary
      broker exists in the supplier's business. */
  ghost predicate Sound(c: Contacts) {
    Distinct(c.links) && AllLinksOk(c) && AllPrimariesOk(c)
  }

  ghost predicate AllLinksOk(c: Contacts) {
    forall l :: l in c.links ==> LinkOk(c, l)
  }

  ghost predicate AllPrimariesOk(c: Contacts) {
    forall s :: s in c.suppliers ==> PrimaryOk(c, s)
  }

  /** Every primary broker is among the supplier's links. */
  ghost predicate PrimariesLinked(c: Contacts) {
    forall s :: s in c.suppliers && c.suppliers[s].primary.Some? ==> Link(c.suppliers[s].primary.value, s) in c.links
  }

  // ----- links -----

  lemma {:induction false} WithoutMembers(links: seq<Link>, p: Party, n: nat, l: Link)
    requires n <= |links|
    ensures l in Without(links, p, n) <==> !Touches(l, p) && exists i :: 0 <= i < n && links[i] == l
  {
    if n > 0 {
      WithoutMembers(links, p, n - 1, l);
    }
  }

  lemma {:induction false} WithoutDistinct(links: seq<Link>, p: Party, n: nat)
    requires n <= |links| && Distinct(links)
    ensures Distinct(Without(links, p, n))
  {
    if n > 0 {
      WithoutDistinct(links, p, n - 1);
      var earlier, l := Without(links, p, n - 1), links[n - 1];
      WithoutMembers(links, p, n - 1, l);
      forall i | 0 <= i < n - 1
        ensures links[i] != l
      {
        assert Differ(links, i, n - 1);
      }
      DistinctAppend(earlier, l);
      assert Without(links, p, n) == if Touches(l, p) then earlier else earlier + [l];
    }
  }

  lemma {:induction false} LinksOfMembers(p: Party, others: seq<Uuid>, n: nat, l: Link)
    requires n <= |others|
    ensures l in LinksOf(p, others, n) <==> exists i :: 0 <= i < n && l == LinkOf(p, others[i])
  {
    if n > 0 {
      LinksOfMembers(p, others, n - 1, l);
    }
  }

  lemma {:induction false} LinksOfDistinct(p: Party, others: seq<Uuid>, n: nat)
    requires n <= |others| && Distinct(others)
    ensures Distinct(LinksOf(p, others, n))
  {
    if n > 0 {
      LinksOfDistinct(p, others, n - 1);
      var l := LinkOf(p, others[n - 1]);
      LinksOfMembers(p, others, n - 1, l);
      forall i | 0 <= i < n - 1
        ensures others[i] != others[n - 1]
      {
        assert Differ(others, i, n - 1);
      }
      DistinctAppend(LinksOf(p, others, n - 1), l);
    }
  }

  /** Replacing the links of a party keeps the table free of repetitions, sets exactly that party's
      links and leaves all other links. */
  lemma {:induction false} RelinkIs(links: seq<Link>, p: Party, others: seq<Uuid>)
    requires Distinct(links) && Distinct(others)
    ensures var after := Without(links, p, |links|) + LinksOf(p, others, |others|);
            && Distinct(after)
            && forall l :: l in after <==> if Touches(l, p) then l in LinksOf(p, others, |others|) else l in links
  {
    var kept, added := Without(links, p, |links|), LinksOf(p, others, |others|);
    WithoutDistinct(links, p, |links|);
    LinksOfDistinct(p, others, |others|);
    forall l: Link
      ensures l in kept <==> !Touches(l, p) && l in links
      ensures l in added ==> Touches(l, p)
    {
      WithoutMembers(links, p, |links|, l);
      LinksOfMembers(p, others, |others|, l);
    }
    DistinctConcat(kept, added);
  }

  /** A party without links needs none deleted. */
  lemma {:induction false} WithoutNothing(links: seq<Link>, p: Party, n: nat)
    requires n <= |links| && forall l :: l in links ==> !Touches(l, p)
    ensures Without(links, p, n) == links[..n]
  {
    if n > 0 {
      WithoutNothing(links, p, n - 1);
    }
  }

  // ----- requests -----

  lemma {:induction false} NoneElsewhere(c: Contacts, business: Uuid, ids: seq<Uuid>, n: nat)
    requires n <= |ids|
    ensures BrokerElsewhere(c, business, ids, n).None? <==> forall i :: 0 <= i < n ==> BrokerHere(c, business, ids[i])
    ensures SupplierElsewhere(c, business, ids, n).None? <==> forall i :: 0 <= i < n ==> SupplierHere(c, business, ids[i])
  {
    if n > 0 {
      NoneElsewhere(c, business, ids, n - 1);
    }
  }

  lemma {:induction false} WithPrimaryIs(suppliers: map<Uuid, Supplier>, ids: seq<Uuid>, b: Uuid, n: nat)
    requires n <= |ids|
    ensures WithPrimary(suppliers, ids, b, n).Keys == suppliers.Keys
    ensures forall s :: s in suppliers ==>
              WithPrimary(suppliers, ids, b, n)[s] == (if Among(ids, s, n) then suppliers[s].(primary := Some(b)) else suppliers[s])
  {
    if n > 0 {
      WithPrimaryIs(suppliers, ids, b, n - 1);
      forall s: Uuid
        ensures Among(ids, s, n) <==> Among(ids, s, n - 1) || ids[n - 1] == s
      {
      }
    }
  }

  /** The merged brokers of a request: no repetitions, exactly those named, and which one comes first. */
  lemma MergedIs(ids: seq<Uuid>, single: Option<Uuid>)
    ensures var merged := Merged(ids, single);
            && Distinct(merged)
            && (forall x :: x in merged <==> x in ids || single == Some(x))
            && FirstOf(merged) == (if single.Some? && single.value !in ids then single else FirstOf(ids))
  {
    var all := if single.Some? && single.value !in ids then [single.value] + ids else ids;
    DedupedDistinct(all, |all|);
    forall x: Uuid
      ensures x in Deduped(all, |all|) <==> x in all
    {
      DedupedMembers(all, |all|, x);
    }
    DedupedFirst(all, |all|);
  }

  lemma {:induction false} DedupedFirst(ids: seq<Uuid>, n: nat)
    requires n <= |ids|
    ensures n > 0 ==> Deduped(ids, n) != [] && Deduped(ids, n)[0] == ids[0]
  {
    if n > 1 {
      DedupedFirst(ids, n - 1);
    } else if n == 1 {
      assert Deduped(ids, 0) == [];
    }
  }

  // ----- every handler keeps the tables sound -----

  /** Relinking a supplier to brokers of its business. */
  lemma {:induction false} RelinkedSupplierSound(c: Contacts, id: Uuid, s: Supplier, merged: seq<Uuid>)
    requires Sound(c) && (id in c.suppliers ==> c.suppliers[id].business == s.business)
    requires Distinct(merged) && s.primary == FirstOf(merged)
    requires forall i :: 0 <= i < |merged| ==> BrokerHere(c, s.business, merged[i])
    ensures var links := Without(c.links, TheSupplier(id), |c.links|) + LinksOf(TheSupplier(id), merged, |merged|);
            Sound(Contacts(c.brokers, c.suppliers[id := s], links))
  {
    var p := TheSupplier(id);
    var links := Without(c.links, p, |c.links|) + LinksOf(p, merged, |merged|);
    var c' := Contacts(c.brokers, c.suppliers[id := s], links);
    RelinkIs(c.links, p, merged);
    forall l | l in links
      ensures LinkOk(c', l)
    {
      LinksOfMembers(p, merged, |merged|, l);
      assert !Touches(l, p) ==> LinkOk(c, l);
    }
    forall x | x in c'.suppliers
      ensures PrimaryOk(c', x)
    {
      assert x != id ==> PrimaryOk(c, x);
    }
  }

  /** Relinking a broker to suppliers of its business and making it their primary broker. */
  lemma {:induction false} RelinkedBrokerSound(c: Contacts, id: Uuid, b: Broker, listed: seq<Uuid>)
    requires Sound(c) && (id in c.brokers ==> c.brokers[id].business == b.business)
    requires Distinct(listed)
    requires forall i :: 0 <= i < |listed| ==> SupplierHere(c, b.business, listed[i])
    ensures var links := Without(c.links, TheBroker(id), |c.links|) + LinksOf(TheBroker(id), listed, |listed|);
            Sound(Contacts(c.brokers[id := b], WithPrimary(c.suppliers, listed, id, |listed|), links))
  {
    var p := TheBroker(id);
    var links := Without(c.links, p, |c.links|) + LinksOf(p, listed, |listed|);
    var c' := Contacts(c.brokers[id := b], WithPrimary(c.suppliers, listed, id, |listed|), links);
    RelinkIs(c.links, p, listed);
    forall l | l in links
      ensures LinkOk(c', l)
    {
      LinksOfMembers(p, listed, |listed|, l);
      WithPrimaryIs(c.suppliers, listed, id, |listed|);
      assert !Touches(l, p) ==> LinkOk(c, l);
    }
    MadePrimaryOk(c, id, b, listed, links);
  }

  lemma {:induction false} MadePrimaryOk(c: Contacts, id: Uuid, b: Broker, listed: seq<Uuid>, links: seq<Link>)
    requires AllPrimariesOk(c) && (id in c.brokers ==> c.brokers[id].business == b.business)
    requires forall i :: 0 <= i < |listed| ==> SupplierHere(c, b.business, listed[i])
    ensures AllPrimariesOk(Contacts(c.brokers[id := b], WithPrimary(c.suppliers, listed, id, |listed|), links))
  {
    var c' := Contacts(c.brokers[id := b], WithPrimary(c.suppliers, listed, id, |listed|), links);
    WithPrimaryIs(c.suppliers, listed, id, |listed|);
    forall x | x in c'.suppliers
      ensures PrimaryOk(c', x)
    {
      assert PrimaryOk(c, x);
    }
  }

  lemma RenamedBrokerSound(c: Contacts, id: Uuid, b: Broker)
    requires Sound(c) && id in c.brokers && c.brokers[id].business == b.business
    ensures Sound(c.(brokers := c.brokers[id := b]))
  {
  }

  lemma RenamedSupplierSound(c: Contacts, id: Uuid, s: Supplier)
    requires Sound(c) && id in c.suppliers && c.suppliers[id].business == s.business && c.suppliers[id].primary == s.primary
    ensures Sound(c.(suppliers := c.suppliers[id := s]))
  {
  }

  /** Deleting a party that nothing points to any more. */
  lemma {:induction false} DroppedSound(c: Contacts, p: Party)
    requires Sound(c) && (p.TheBroker? ==> forall s :: s in c.suppliers ==> c.suppliers[s].primary != Some(p.id))
    ensures var links := Without(c.links, p, |c.links|);
            Sound(Contacts(if p.TheBroker? then c.brokers - {p.id} else c.brokers, if p.TheBroker? then c.suppliers else c.suppliers - {p.id}, links))
  {
    var links := Without(c.links, p, |c.links|);
    var c' := Contacts(if p.TheBroker? then c.brokers - {p.id} else c.brokers, if p.TheBroker? then c.suppliers else c.suppliers - {p.id}, links);
    WithoutDistinct(c.links, p, |c.links|);
    forall l | l in links
      ensures LinkOk(c', l)
    {
      WithoutMembers(c.links, p, |c.links|, l);
      assert LinkOk(c, l);
    }
    forall x | x in c'.suppliers
      ensures PrimaryOk(c', x)
    {
      assert PrimaryOk(c, x);
    }
  }

  /** A new party has no links to replace. */
  lemma {:induction false} NewParty(c: Contacts, p: Party)
    requires Sound(c) && (p.TheBroker? ==> p.id !in c.brokers) && (p.TheSupplier? ==> p.id !in c.suppliers)
    ensures Without(c.links, p, |c.links|) == c.links
  {
    forall l | l in c.links
      ensures !Touches(l, p)
    {
      assert LinkOk(c, l);
    }
    WithoutNothing(c.links, p, |c.links|);
  }

  lemma CreatedSupplierSound(c: Contacts, business: Uuid, id: Uuid, name: string, ids: seq<Uuid>, single: Option<Uuid>)
    requires Sound(c) && id !in c.suppliers
    ensures Sound(CreatedSupplier(c, business, id, name, ids, single).1)
  {
    if CreatedSupplier(c, business, id, name, ids, single).0.Done? {
      var merged := Merged(ids, single);
      MergedIs(ids, single);
      NoneElsewhere(c, business, merged, |merged|);
      RelinkedSupplierSound(c, id, Supplier(business, Strip(name), FirstOf(merged)), merged);
      NewParty(c, TheSupplier(id));
    }
  }

  lemma UpdatedSupplierSound(c: Contacts, business: Uuid, id: Uuid, name: Option<string>, ids: Option<seq<Uuid>>, single: Option<Option<Uuid>>)
    requires Sound(c)
    ensures Sound(UpdatedSupplier(c, business, id, name, ids, single).1)
  {
    if UpdatedSupplier(c, business, id, name, ids, single).0.Done? {
      var s := if name.Some? then c.suppliers[id].(name := Strip(name.value)) else c.suppliers[id];
      if ids.None? && single.None? {
        RenamedSupplierSound(c, id, s);
      } else {
        var named := if ids.Some? then ids.value else [];
        var given := if single.Some? then single.value else None;
        MergedIs(named, given);
        NoneElsewhere(c, business, Merged(named, given), |Merged(named, given)|);
        RelinkedSupplierSound(c, id, s.(primary := FirstOf(Merged(named, given))), Merged(named, given));
      }
    }
  }

  lemma CreatedBrokerSound(c: Contacts, business: Uuid, id: Uuid, name: string, ids: seq<Uuid>)
    requires Sound(c) && id !in c.brokers
    ensures Sound(CreatedBroker(c, business, id, name, ids).1)
  {
    if CreatedBroker(c, business, id, name, ids).0.Done? {
      var listed := Deduped(ids, |ids|);
      DedupedDistinct(ids, |ids|);
      NoneElsewhere(c, business, listed, |listed|);
      RelinkedBrokerSound(c, id, Broker(business, Strip(name)), listed);
      NewParty(c, TheBroker(id));
    }
  }

  lemma UpdatedBrokerSound(c: Contacts, business: Uuid, id: Uuid, name: Option<string>, ids: Option<seq<Uuid>>)
    requires Sound(c)
    ensures Sound(UpdatedBroker(c, business, id, name, ids).1)
  {
    if UpdatedBroker(c, business, id, name, ids).0.Done? {
      var b := if name.Some? then c.brokers[id].(name := Strip(name.value)) else c.brokers[id];
      assert c.brokers[id := c.brokers[id]] == c.brokers;
      if ids.None? {
        RenamedBrokerSound(c, id, b);
      } else {
        var listed := Deduped(ids.value, |ids.value|);
        DedupedDistinct(ids.value, |ids.value|);
        NoneElsewhere(c, business, listed, |listed|);
        RelinkedBrokerSound(c, id, b, listed);
      }
    }
  }

  lemma DeletedSound(c: Contacts, business: Uuid, id: Uuid, purchases: nat)
    requires Sound(c)
    ensures Sound(DeletedSupplier(c, business, id, purchases).1) && Sound(DeletedBroker(c, business, id, purchases).1)
  {
    if DeletedSupplier(c, business, id, purchases).0.Done? {
      DroppedSound(c, TheSupplier(id));
    }
    if DeletedBroker(c, business, id, purchases).0.Done? {
      forall s | s in c.suppliers
        ensures c.suppliers[s].primary != Some(id)
      {
        assert PrimaryOk(c, s);
      }
      DroppedSound(c, TheBroker(id));
    }
  }

  // ----- runs -----

  datatype Action = CreateSupplier(id: Uuid, newName: string, ids: seq<Uuid>, single: Option<Uuid>)
                  | UpdateSupplier(id: Uuid, name: Option<string>, setIds: Option<seq<Uuid>>, setSingle: Option<Option<Uuid>>)
                  | DeleteSupplier(id: Uuid, purchases: nat)
                  | CreateBroker(id: Uuid, newName: string, ids: seq<Uuid>)
                  | UpdateBroker(id: Uuid, name: Option<string>, setIds: Option<seq<Uuid>>)
                  | DeleteBroker(id: Uuid, purchases: nat)

  /** One request made within a business. */
  function After(c: Contacts, business: Uuid, a: Action): Contacts {
    match a
    case CreateSupplier(id, name, ids, single) => CreatedSupplier(c, business, id, name, ids, single).1
    case UpdateSupplier(id, name, ids, single) => UpdatedSupplier(c, business, id, name, ids, single).1
    case DeleteSupplier(id, purchases) => DeletedSupplier(c, business, id, purchases).1
    case CreateBroker(id, name, ids) => CreatedBroker(c, business, id, name, ids).1
    case UpdateBroker(id, name, ids) => UpdatedBroker(c, business, id, name, ids).1
    case DeleteBroker(id, purchases) => DeletedBroker(c, business, id, purchases).1
  }

  /** A created party gets an id that no party has. */
  predicate FreshId(c: Contacts, a: Action) {
    (a.CreateSupplier? ==> a.id !in c.suppliers) && (a.CreateBroker? ==> a.id !in c.brokers)
  }

  lemma StepKeepsSound(c: Contacts, business: Uuid, a: Action)
    requires Sound(c) && FreshId(c, a)
    ensures Sound(After(c, business, a))
  {
    match a
    case CreateSupplier(id, name, ids, single) => CreatedSupplierSound(c, business, id, name, ids, single);
    case UpdateSupplier(id, name, ids, single) => UpdatedSupplierSound(c, business, id, name, ids, single);
    case DeleteSupplier(id, purchases) => DeletedSound(c, business, id, purchases);
    case CreateBroker(id, name, ids) => CreatedBrokerSound(c, business, id, name, ids);
    case UpdateBroker(id, name, ids) => UpdatedBrokerSound(c, business, id, name, ids);
    case DeleteBroker(id, purchases) => DeletedSound(c, business, id, purchases);
  }

  /** The tables after the first n requests, each within its own business. */
  function AfterRun(c: Contacts, run: seq<(Uuid, Action)>, n: nat): Contacts
    requires n <= |run|
  {
    if n == 0 then c else After(AfterRun(c, run, n - 1), run[n - 1].0, run[n - 1].1)
  }

  ghost predicate RunFresh(c: Contacts, run: seq<(Uuid, Action)>, n: nat)
    requires n <= |run|
  {
    n == 0 || (RunFresh(c, run, n - 1) && FreshId(AfterRun(c, run, n - 1), run[n - 1].1))
  }

  /** Over every run, across businesses, the links stay free of repetitions and join existing parties of
      one business, and primary brokers exist in the supplier's business. */
  lemma {:induction false} RunKeepsSound(c: Contacts, run: seq<(Uuid, Action)>, n: nat)
    requires n <= |run| && Sound(c) && RunFresh(c, run, n)
    ensures Sound(AfterRun(c, run, n))
  {
    if n > 0 {
      RunKeepsSound(c, run, n - 1);
      StepKeepsSound(AfterRun(c, run, n - 1), run[n - 1].0, run[n - 1].1);
    }
  }

  // ----- the primary broker among the links -----

  lemma CreatedSupplierLinked(c: Contacts, business: Uuid, id: Uuid, name: string, ids: seq<Uuid>, single: Option<Uuid>)
    requires PrimariesLinked(c)
    ensures PrimariesLinked(CreatedSupplier(c, business, id, name, ids, single).1)
  {
    var merged := Merged(ids, single);
    if merged != [] {
      LinksOfMembers(TheSupplier(id), merged, |merged|, Link(merged[0], id));
    }
  }

  lemma {:induction false} RelinkedSupplierLinked(c: Contacts, id: Uuid, row: Supplier, merged: seq<Uuid>)
    requires PrimariesLinked(c) && row.primary == FirstOf(merged)
    ensures PrimariesLinked(Contacts(c.brokers, c.suppliers[id := row],
                                     Without(c.links, TheSupplier(id), |c.links|) + LinksOf(TheSupplier(id), merged, |merged|)))
  {
    if merged != [] {
      LinksOfMembers(TheSupplier(id), merged, |merged|, Link(merged[0], id));
    }
    forall s | s in c.suppliers && s != id && c.suppliers[s].primary.Some?
      ensures Link(c.suppliers[s].primary.value, s) in Without(c.links, TheSupplier(id), |c.links|)
    {
      WithoutMembers(c.links, TheSupplier(id), |c.links|, Link(c.suppliers[s].primary.value, s));
    }
  }

  lemma UpdatedSupplierLinked(c: Contacts, business: Uuid, id: Uuid, name: Option<string>, ids: Option<seq<Uuid>>, single: Option<Option<Uuid>>)
    requires PrimariesLinked(c)
    ensures PrimariesLinked(UpdatedSupplier(c, business, id, name, ids, single).1)
  {
    if UpdatedSupplier(c, business, id, name, ids, single).0.Done? {
      var merged := Merged(if ids.Some? then ids.value else [], if single.Some? then single.value else None);
      var s := if name.Some? then c.suppliers[id].(name := Strip(name.value)) else c.suppliers[id];
      RelinkedSupplierLinked(c, id, s.(primary := FirstOf(merged)), merged);
    }
  }

  lemma DeletedLinked(c: Contacts, business: Uuid, id: Uuid, purchases: nat)
    requires PrimariesLinked(c) && Sound(c)
    ensures PrimariesLinked(DeletedSupplier(c, business, id, purchases).1) && PrimariesLinked(DeletedBroker(c, business, id, purchases).1)
  {
    forall s | s in c.suppliers && c.suppliers[s].primary.Some?
      ensures var l := Link(c.suppliers[s].primary.value, s);
              && (s != id ==> l in Without(c.links, TheSupplier(id), |c.links|))
              && (c.suppliers[s].primary.value != id ==> l in Without(c.links, TheBroker(id), |c.links|))
      ensures PrimaryOk(c, s)
    {
      WithoutMembers(c.links, TheSupplier(id), |c.links|, Link(c.suppliers[s].primary.value, s));
      WithoutMembers(c.links, TheBroker(id), |c.links|, Link(c.suppliers[s].primary.value, s));
    }
  }

  lemma CreatedBrokerLinked(c: Contacts, business: Uuid, id: Uuid, name: string, ids: seq<Uuid>)
    requires PrimariesLinked(c)
    ensures PrimariesLinked(CreatedBroker(c, business, id, name, ids).1)
  {
    var listed := Deduped(ids, |ids|);
    WithPrimaryIs(c.suppliers, listed, id, |listed|);
    forall s | s in c.suppliers && Among(listed, s, |listed|)
      ensures Link(id, s) in LinksOf(TheBroker(id), listed, |listed|)
    {
      LinksOfMembers(TheBroker(id), listed, |listed|, Link(id, s));
    }
  }

  /** Every handler but `update_broker` keeps each primary broker among the supplier's links. */
  lemma StepKeepsPrimariesLinked(c: Contacts, business: Uuid, a: Action)
    requires Sound(c) && PrimariesLinked(c) && !a.UpdateBroker?
    ensures PrimariesLinked(After(c, business, a))
  {
    match a
    case CreateSupplier(id, name, ids, single) => CreatedSupplierLinked(c, business, id, name, ids, single);
    case UpdateSupplier(id, name, ids, single) => UpdatedSupplierLinked(c, business, id, name, ids, single);
    case DeleteSupplier(id, purchases) => DeletedLinked(c, business, id, purchases);
    case CreateBroker(id, name, ids) => CreatedBrokerLinked(c, business, id, name, ids);
    case DeleteBroker(id, purchases) => DeletedLinked(c, business, id, purchases);
  }

  /** `update_broker` keeps it if and only if the new list names every supplier whose primary broker it is;
      a supplier left out loses the link and keeps the field. */
  lemma UpdateBrokerKeepsPrimariesLinkedIff(c: Contacts, business: Uuid, id: Uuid, name: Option<string>, ids: Option<seq<Uuid>>)
    requires Sound(c) && PrimariesLinked(c) && UpdatedBroker(c, business, id, name, ids).0.Done?
    ensures PrimariesLinked(UpdatedBroker(c, business, id, name, ids).1)
            <==> ids.None? || forall s :: s in c.suppliers && c.suppliers[s].primary == Some(id) ==> s in ids.value
  {
    if ids.Some? {
      var c', listed := UpdatedBroker(c, business, id, name, ids).1, Deduped(ids.value, |ids.value|);
      DedupedDistinct(ids.value, |ids.value|);
      RelinkIs(c.links, TheBroker(id), listed);
      WithPrimaryIs(c.suppliers, listed, id, |listed|);
      forall s | s in c.suppliers
        ensures Link(id, s) in c'.links <==> s in ids.value
        ensures Among(listed, s, |listed|) <==> s in ids.value
      {
        DedupedMembers(ids.value, |ids.value|, s);
        LinksOfMembers(TheBroker(id), listed, |listed|, Link(id, s));
      }
      PrimariesAfterUpdate(c, c', id, ids.value);
    }
  }

  lemma PrimariesAfterUpdate(c: Contacts, c': Contacts, id: Uuid, ids: seq<Uuid>)
    requires PrimariesLinked(c) && c'.suppliers.Keys == c.suppliers.Keys
    requires forall s :: s in c.suppliers ==> c'.suppliers[s].primary == (if s in ids then Some(id) else c.suppliers[s].primary)
    requires forall s :: s in c.suppliers ==> (Link(id, s) in c'.links <==> s in ids)
    requires forall l: Link :: l.broker != id ==> (l in c'.links <==> l in c.links)
    ensures PrimariesLinked(c') <==> forall s :: s in c.suppliers && c.suppliers[s].primary == Some(id) ==> s in ids
  {
  }

  /** An accepted `update_broker` with a list names every supplier whose primary broker it is. */
  ghost predicate NamesItsSuppliers(c: Contacts, business: Uuid, a: Action) {
    match a
    case UpdateBroker(id, name, ids) =>
      UpdatedBroker(c, business, id, name, ids).0.Done? && ids.Some?
      ==> forall s :: s in c.suppliers && c.suppliers[s].primary == Some(id) ==> s in ids.value
    case _ => true
  }

  lemma StepKeepsPrimariesLinkedIff(c: Contacts, business: Uuid, a: Action)
    requires Sound(c) && PrimariesLinked(c)
    ensures PrimariesLinked(After(c, business, a)) <==> NamesItsSuppliers(c, business, a)
  {
    match a
    case UpdateBroker(id, name, ids) =>
      if UpdatedBroker(c, business, id, name, ids).0.Done? {
        UpdateBrokerKeepsPrimariesLinkedIff(c, business, id, name, ids);
      }
    case _ => StepKeepsPrimariesLinked(c, business, a);
  }

  /** Primary brokers are among the links at the start and after each of the first n requests. */
  ghost predicate AlwaysLinked(c: Contacts, run: seq<(Uuid, Action)>, n: nat)
    requires n <= |run|
  {
    PrimariesLinked(AfterRun(c, run, n)) && (n > 0 ==> AlwaysLinked(c, run, n - 1))
  }

  ghost predicate AlwaysNamesItsSuppliers(c: Contacts, run: seq<(Uuid, Action)>, n: nat)
    requires n <= |run|
  {
    n == 0 || (AlwaysNamesItsSuppliers(c, run, n - 1) && NamesItsSuppliers(AfterRun(c, run, n - 1), run[n - 1].0, run[n - 1].1))
  }

  /** Over every run, across businesses, primary brokers stay among the links throughout if and only if every
      accepted `update_broker` with a list names each supplier whose primary broker it is. */
  lemma {:induction false} RunKeepsPrimariesLinkedIff(c: Contacts, run: seq<(Uuid, Action)>, n: nat)
    requires n <= |run| && Sound(c) && PrimariesLinked(c) && RunFresh(c, run, n)
    ensures AlwaysLinked(c, run, n) <==> AlwaysNamesItsSuppliers(c, run, n)
  {
    if n > 0 {
      RunKeepsPrimariesLinkedIff(c, run, n - 1);
      RunKeepsSound(c, run, n - 1);
      if AlwaysLinked(c, run, n - 1) {
        LinkedNow(c, run, n - 1);
        StepKeepsPrimariesLinkedIff(AfterRun(c, run, n - 1), run[n - 1].0, run[n - 1].1);
      }
    }
  }

  lemma {:induction false} LinkedNow(c: Contacts, run: seq<(Uuid, Action)>, n: nat)
    requires n <= |run| && AlwaysLinked(c, run, n)
    ensures PrimariesLinked(AfterRun(c, run, n))
  {
  }

  // ----- what an update of a supplier sets -----

  /** The supplier's links become exactly the named brokers, all other links stay, and its primary broker
      is the single one given, unless the list names it too: then the first of the list, whichever it is. */
  lemma UpdateSupplierSets(c: Contacts, business: Uuid, id: Uuid, name: Option<string>, ids: seq<Uuid>, single: Option<Uuid>)
    requires Sound(c) && UpdatedSupplier(c, business, id, name, Some(ids), Some(single)).0.Done?
    ensures var c' := UpdatedSupplier(c, business, id, name, Some(ids), Some(single)).1;
            && id in c'.suppliers
            && (forall l :: l in c'.links <==> if l.supplier == id then l.broker in ids || single == Some(l.broker) else l in c.links)
            && c'.suppliers[id].primary == (if single.Some? && single.value !in ids then single else FirstOf(ids))
  {
    var merged := Merged(ids, single);
    MergedIs(ids, single);
    RelinkIs(c.links, TheSupplier(id), merged);
    forall l: Link
      ensures l in LinksOf(TheSupplier(id), merged, |merged|) <==> l.supplier == id && l.broker in merged
    {
      LinksOfMembers(TheSupplier(id), merged, |merged|, l);
    }
  }

  /** A new supplier is accepted exactly when its name is free and every named broker is one of the business. */
  lemma CreateSupplierAcceptedIff(c: Contacts, business: Uuid, id: Uuid, name: string, ids: seq<Uuid>, single: Option<Uuid>)
    ensures CreatedSupplier(c, business, id, name, ids, single).0.Done?
            <==> !SupplierNameTaken(c, business, name, None) && forall b :: b in ids || single == Some(b) ==> BrokerHere(c, business, b)
  {
    var merged := Merged(ids, single);
    MergedIs(ids, single);
    NoneElsewhere(c, business, merged, |merged|);
    assert (forall i :: 0 <= i < |merged| ==> BrokerHere(c, business, merged[i])) <==> forall b :: b in merged ==> BrokerHere(c, business, b);
  }

  /** Its links and its primary broker are set in the same way. */
  lemma CreateSupplierSets(c: Contacts, business: Uuid, id: Uuid, name: string, ids: seq<Uuid>, single: Option<Uuid>)
    requires Sound(c) && id !in c.suppliers && CreatedSupplier(c, business, id, name, ids, single).0.Done?
    ensures var c' := CreatedSupplier(c, business, id, name, ids, single).1;
            && id in c'.suppliers && c'.suppliers[id].business == business
            && (forall l :: l in c'.links <==> if l.supplier == id then l.broker in ids || single == Some(l.broker) else l in c.links)
            && c'.suppliers[id].primary == (if single.Some? && single.value !in ids then single else FirstOf(ids))
  {
    var merged := Merged(ids, single);
    MergedIs(ids, single);
    NewParty(c, TheSupplier(id));
    RelinkIs(c.links, TheSupplier(id), merged);
    forall l: Link
      ensures l in LinksOf(TheSupplier(id), merged, |merged|) <==> l.supplier == id && l.broker in merged
    {
      LinksOfMembers(TheSupplier(id), merged, |merged|, l);
    }
  }

  /** Giving a broker a list of suppliers links it to exactly those and makes it their primary broker; other
      links stay, and other suppliers keep the primary broker they had. */
  lemma BrokerListSets(c: Contacts, business: Uuid, id: Uuid, name: Option<string>, ids: seq<Uuid>)
    requires Sound(c) && UpdatedBroker(c, business, id, name, Some(ids)).0.Done?
    ensures var c' := UpdatedBroker(c, business, id, name, Some(ids)).1;
            && (forall l :: l in c'.links <==> if l.broker == id then l.supplier in ids else l in c.links)
            && c'.suppliers.Keys == c.suppliers.Keys
            && (forall s :: s in c.suppliers ==>
                  c'.suppliers[s] == if s in ids then c.suppliers[s].(primary := Some(id)) else c.suppliers[s])
  {
    BrokerListed(c, id, ids);
  }

  lemma NewBrokerListSets(c: Contacts, business: Uuid, id: Uuid, name: string, ids: seq<Uuid>)
    requires Sound(c) && id !in c.brokers && CreatedBroker(c, business, id, name, ids).0.Done?
    ensures var c' := CreatedBroker(c, business, id, name, ids).1;
            && (forall l :: l in c'.links <==> if l.broker == id then l.supplier in ids else l in c.links)
            && c'.suppliers.Keys == c.suppliers.Keys
            && (forall s :: s in c.suppliers ==>
                  c'.suppliers[s] == if s in ids then c.suppliers[s].(primary := Some(id)) else c.suppliers[s])
  {
    NewParty(c, TheBroker(id));
    BrokerListed(c, id, ids);
  }

  lemma {:induction false} BrokerListed(c: Contacts, id: Uuid, ids: seq<Uuid>)
    requires Sound(c)
    ensures var listed := Deduped(ids, |ids|);
            var links := Without(c.links, TheBroker(id), |c.links|) + LinksOf(TheBroker(id), listed, |listed|);
            var suppliers := WithPrimary(c.suppliers, listed, id, |listed|);
            && (forall l :: l in links <==> if l.broker == id then l.supplier in ids else l in c.links)
            && suppliers.Keys == c.suppliers.Keys
            && (forall s :: s in c.suppliers ==> suppliers[s] == if s in ids then c.suppliers[s].(primary := Some(id)) else c.suppliers[s])
  {
    var listed := Deduped(ids, |ids|);
    DedupedDistinct(ids, |ids|);
    RelinkIs(c.links, TheBroker(id), listed);
    WithPrimaryIs(c.suppliers, listed, id, |listed|);
    forall s: Uuid
      ensures s in listed <==> s in ids
      ensures Among(listed, s, |listed|) <==> s in ids
    {
      DedupedMembers(ids, |ids|, s);
    }
    forall l: Link
      ensures l in LinksOf(TheBroker(id), listed, |listed|) <==> l.broker == id && l.supplier in listed
    {
      LinksOfMembers(TheBroker(id), listed, |listed|, l);
    }
  }

  /** A broker is deleted exactly when it is one of the business, has no purchases and is nobody's primary
      broker; a deleted party leaves no link behind and everything else stays. */
  lemma DeleteLeavesNothing(c: Contacts, business: Uuid, id: Uuid, purchases: nat)
    requires Sound(c)
    ensures var (outcome, c') := DeletedBroker(c, business, id, purchases);
            && (outcome.Done? <==> BrokerHere(c, business, id) && purchases == 0
                                   && forall s :: s in c.suppliers ==> c.suppliers[s].primary != Some(id))
            && (outcome.Done? ==> c'.brokers == c.brokers - {id} && c'.suppliers == c.suppliers
                                  && forall l :: l in c'.links <==> l in c.links && l.broker != id)
    ensures var (outcome, c') := DeletedSupplier(c, business, id, purchases);
            && (outcome.Done? <==> SupplierHere(c, business, id) && purchases == 0)
            && (outcome.Done? ==> c'.suppliers == c.suppliers - {id} && c'.brokers == c.brokers
                                  && forall l :: l in c'.links <==> l in c.links && l.supplier != id)
  {
    forall l: Link
      ensures l in Without(c.links, TheBroker(id), |c.links|) <==> l in c.links && l.broker != id
      ensures l in Without(c.links, TheSupplier(id), |c.links|) <==> l in c.links && l.supplier != id
    {
      WithoutMembers(c.links, TheBroker(id), |c.links|, l);
      WithoutMembers(c.links, TheSupplier(id), |c.links|, l);
    }
    forall s | s in c.suppliers
      ensures PrimaryOk(c, s)
    {
    }
  }

  // ----- names -----

  ghost predicate SupplierNamesDiffer(suppliers: map<Uuid, Supplier>) {
    forall s, t :: s in suppliers && t in suppliers && s != t && suppliers[s].business == suppliers[t].business ==>
      Lower(suppliers[s].name) != Lower(suppliers[t].name)
  }

  ghost predicate BrokerNamesDiffer(brokers: map<Uuid, Broker>) {
    forall a, b :: a in brokers && b in brokers && a != b && brokers[a].business == brokers[b].business ==>
      Lower(brokers[a].name) != Lower(brokers[b].name)
  }

  lemma NamedSupplier(c: Contacts, id: Uuid, s: Supplier)
    requires SupplierNamesDiffer(c.suppliers)
    requires forall t :: t in c.suppliers && t != id ==> !SameName(c.suppliers[t].business, c.suppliers[t].name, s.business, s.name)
    ensures SupplierNamesDiffer(c.suppliers[id := s])
  {
  }

  lemma NamedBroker(c: Contacts, id: Uuid, b: Broker)
    requires BrokerNamesDiffer(c.brokers)
    requires forall a :: a in c.brokers && a != id ==> !SameName(c.brokers[a].business, c.brokers[a].name, b.business, b.name)
    ensures BrokerNamesDiffer(c.brokers[id := b])
  {
  }

  lemma {:induction false} PrimariesKeepNames(suppliers: map<Uuid, Supplier>, ids: seq<Uuid>, b: Uuid)
    requires SupplierNamesDiffer(suppliers)
    ensures SupplierNamesDiffer(WithPrimary(suppliers, ids, b, |ids|))
  {
    WithPrimaryIs(suppliers, ids, b, |ids|);
  }

  lemma SupplierNameFree(c: Contacts, business: Uuid, name: string, except: Option<Uuid>)
    requires !SupplierNameTaken(c, business, name, except)
    ensures forall t :: t in c.suppliers && except != Some(t) ==> !SameName(c.suppliers[t].business, c.suppliers[t].name, business, Strip(name))
  {
  }

  lemma BrokerNameFree(c: Contacts, business: Uuid, name: string, except: Option<Uuid>)
    requires !BrokerNameTaken(c, business, name, except)
    ensures forall a :: a in c.brokers && except != Some(a) ==> !SameName(c.brokers[a].business, c.brokers[a].name, business, Strip(name))
  {
  }

  lemma CreatedSupplierNames(c: Contacts, business: Uuid, id: Uuid, name: string, ids: seq<Uuid>, single: Option<Uuid>)
    requires SupplierNamesDiffer(c.suppliers)
    ensures SupplierNamesDiffer(CreatedSupplier(c, business, id, name, ids, single).1.suppliers)
  {
    if CreatedSupplier(c, business, id, name, ids, single).0.Done? {
      SupplierNameFree(c, business, name, None);
      NamedSupplier(c, id, CreatedSupplier(c, business, id, name, ids, single).1.suppliers[id]);
    }
  }

  lemma CreatedBrokerNames(c: Contacts, business: Uuid, id: Uuid, name: string, ids: seq<Uuid>)
    requires BrokerNamesDiffer(c.brokers)
    ensures BrokerNamesDiffer(CreatedBroker(c, business, id, name, ids).1.brokers)
  {
    if CreatedBroker(c, business, id, name, ids).0.Done? {
      BrokerNameFree(c, business, name, None);
      NamedBroker(c, id, Broker(business, Strip(name)));
    }
  }

  lemma UpdatedSupplierNames(c: Contacts, business: Uuid, id: Uuid, name: Option<string>, ids: Option<seq<Uuid>>, single: Option<Option<Uuid>>)
    requires SupplierNamesDiffer(c.suppliers)
    ensures SupplierNamesDiffer(UpdatedSupplier(c, business, id, name, ids, single).1.suppliers)
  {
    var c' := UpdatedSupplier(c, business, id, name, ids, single).1;
    if c' != c {
      if name.Some? {
        SupplierNameFree(c, business, name.value, Some(id));
      }
      NamedSupplier(c, id, c'.suppliers[id]);
      assert c'.suppliers == c.suppliers[id := c'.suppliers[id]];
    }
  }

  lemma UpdatedBrokerNames(c: Contacts, business: Uuid, id: Uuid, name: Option<string>, ids: Option<seq<Uuid>>)
    requires BrokerNamesDiffer(c.brokers)
    ensures BrokerNamesDiffer(UpdatedBroker(c, business, id, name, ids).1.brokers)
  {
    var c' := UpdatedBroker(c, business, id, name, ids).1;
    if c' != c && name.Some? {
      BrokerNameFree(c, business, name.value, Some(id));
      NamedBroker(c, id, c'.brokers[id]);
    }
  }

  lemma StepKeepsSupplierNames(c: Contacts, business: Uuid, a: Action)
    requires SupplierNamesDiffer(c.suppliers) && FreshId(c, a)
    ensures SupplierNamesDiffer(After(c, business, a).suppliers)
  {
    match a
    case CreateSupplier(id, name, ids, single) => CreatedSupplierNames(c, business, id, name, ids, single);
    case UpdateSupplier(id, name, ids, single) => UpdatedSupplierNames(c, business, id, name, ids, single);
    case DeleteSupplier(id, purchases) =>
    case CreateBroker(id, name, ids) => PrimariesKeepNames(c.suppliers, Deduped(ids, |ids|), id);
    case UpdateBroker(id, name, ids) =>
      if ids.Some? {
        PrimariesKeepNames(c.suppliers, Deduped(ids.value, |ids.value|), id);
      }
    case DeleteBroker(id, purchases) =>
  }

  lemma StepKeepsBrokerNames(c: Contacts, business: Uuid, a: Action)
    requires BrokerNamesDiffer(c.brokers) && FreshId(c, a)
    ensures BrokerNamesDiffer(After(c, business, a).brokers)
  {
    match a
    case CreateBroker(id, name, ids) => CreatedBrokerNames(c, business, id, name, ids);
    case UpdateBroker(id, name, ids) => UpdatedBrokerNames(c, business, id, name, ids);
    case _ =>
  }

  /** No request makes two parties of a kind in one business share a name, letter case aside. */
  lemma StepKeepsNames(c: Contacts, business: Uuid, a: Action)
    requires SupplierNamesDiffer(c.suppliers) && BrokerNamesDiffer(c.brokers) && FreshId(c, a)
    ensures SupplierNamesDiffer(After(c, business, a).suppliers) && BrokerNamesDiffer(After(c, business, a).brokers)
  {
    StepKeepsSupplierNames(c, business, a);
    StepKeepsBrokerNames(c, business, a);
  }
}
