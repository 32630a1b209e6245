/** When each of the contact handlers accepts a request, in terms of names and businesses, and what it stores. */
module ContactLaws {
  import opened ContactLinks
  import opened ContactLinksTheorems
  import opened Lists
  import opened Numerals
  import opened Options
  import opened Texts

  /** No other supplier of the business has the name, letter case and outer white space aside. */
  ghost predicate SupplierNameFree(c: Contacts, business: Uuid, name: string, except: Option<Uuid>) {
    forall s :: s in c.suppliers && except != Some(s) && c.suppliers[s].business == business ==> Lower(c.suppliers[s].name) != Lower(Strip(name))
  }

  ghost predicate BrokerNameFree(c: Contacts, business: Uuid, name: string, except: Option<Uuid>) {
    forall b :: b in c.brokers && except != Some(b) && c.brokers[b].business == business ==> Lower(c.brokers[b].name) != Lower(Strip(name))
  }

  ghost predicate IsBrokerOf(c: Contacts, business: Uuid, b: Uuid) {
    b in c.brokers && c.brokers[b].business == business
  }

  ghost predicate AreBrokersOf(c: Contacts, business: Uuid, ids: seq<Uuid>) {
    forall b :: b in ids ==> IsBrokerOf(c, business, b)
  }

  ghost predicate AreSuppliersOf(c: Contacts, business: Uuid, ids: seq<Uuid>) {
    forall s :: s in ids ==> s in c.suppliers && c.suppliers[s].business == business
  }

  lemma {:induction false} MergedAre(c: Contacts, business: Uuid, ids: seq<Uuid>, single: Option<Uuid>)
    ensures var merged := Merged(ids, single);
            BrokerElsewhere(c, business, merged, |merged|).None?
            <==> AreBrokersOf(c, business, ids) && (single.Some? ==> IsBrokerOf(c, business, single.value))
  {
    var merged := Merged(ids, single);
    MergedIs(ids, single);
    NoneElsewhere(c, business, merged, |merged|);
    assert (forall i :: 0 <= i < |merged| ==> BrokerHere(c, business, merged[i])) <==> forall b :: b in merged ==> BrokerHere(c, business, b);
  }

  lemma {:induction false} ListedAre(c: Contacts, business: Uuid, ids: seq<Uuid>)
    ensures SupplierElsewhere(c, business, Deduped(ids, |ids|), |Deduped(ids, |ids|)|).None? <==> AreSuppliersOf(c, business, ids)
  {
    var listed := Deduped(ids, |ids|);
    NoneElsewhere(c, business, listed, |listed|);
    forall s: Uuid
      ensures s in listed <==> s in ids
    {
      DedupedMembers(ids, |ids|, s);
      assert Among(ids, s, |ids|) <==> s in ids;
    }
    assert (forall i :: 0 <= i < |listed| ==> SupplierHere(c, business, listed[i])) <==> forall s :: s in listed ==> SupplierHere(c, business, s);
  }

  /** A supplier is created exactly if its name is free and all named brokers are of the business, under its
      stripped name; the other suppliers and all brokers stay. */
  lemma CreateSupplierStores(c: Contacts, business: Uuid, id: Uuid, name: string, ids: seq<Uuid>, single: Option<Uuid>)
    ensures var (outcome, c') := CreatedSupplier(c, business, id, name, ids, single);
            && (outcome.Done? <==> SupplierNameFree(c, business, name, None) && AreBrokersOf(c, business, ids)
                                   && (single.Some? ==> IsBrokerOf(c, business, single.value)))
            && (outcome.Done? ==>
                  && id in c'.suppliers && c'.suppliers[id].name == Strip(name) && c'.suppliers[id].business == business
                  && c'.suppliers == c.suppliers[id := c'.suppliers[id]] && c'.brokers == c.brokers)
            && (!outcome.Done? ==> c' == c)
  {
    MergedAre(c, business, ids, single);
  }

  /** A supplier of the business is updated exactly if the new name is free among the others and all named brokers
      are of the business; a name that is not given stays, and so do the other suppliers and all brokers. */
  lemma UpdateSupplierStores(c: Contacts, business: Uuid, id: Uuid, name: Option<string>, ids: Option<seq<Uuid>>, single: Option<Option<Uuid>>)
    ensures var (outcome, c') := UpdatedSupplier(c, business, id, name, ids, single);
            && (outcome.Done? <==> && id in c.suppliers && c.suppliers[id].business == business
                                   && (name.Some? ==> SupplierNameFree(c, business, name.value, Some(id)))
                                   && (ids.Some? ==> AreBrokersOf(c, business, ids.value))
                                   && (single.Some? && single.value.Some? ==> IsBrokerOf(c, business, single.value.value)))
            && (outcome.Done? ==>
                  && id in c'.suppliers && c'.suppliers[id].business == business
                  && c'.suppliers[id].name == (if name.Some? then Strip(name.value) else c.suppliers[id].name)
                  && c'.suppliers == c.suppliers[id := c'.suppliers[id]] && c'.brokers == c.brokers
                  && (ids.None? && single.None? ==> c'.links == c.links && c'.suppliers[id].primary == c.suppliers[id].primary))
            && (!outcome.Done? ==> c' == c)
  {
    MergedAre(c, business, if ids.Some? then ids.value else [], if single.Some? then single.value else None);
  }

  /** A broker is created exactly if its name is free and all listed suppliers are of the business. */
  lemma CreateBrokerStores(c: Contacts, business: Uuid, id: Uuid, name: string, ids: seq<Uuid>)
    ensures var (outcome, c') := CreatedBroker(c, business, id, name, ids);
            && (outcome.Done? <==> BrokerNameFree(c, business, name, None) && AreSuppliersOf(c, business, ids))
            && (outcome.Done? ==> c'.brokers == c.brokers[id := Broker(business, Strip(name))])
            && (!outcome.Done? ==> c' == c)
  {
    ListedAre(c, business, ids);
  }

  /** A broker of the business is updated exactly if the new name is free among the others and all listed suppliers
      are of the business; what is not given stays. */
  lemma UpdateBrokerStores(c: Contacts, business: Uuid, id: Uuid, name: Option<string>, ids: Option<seq<Uuid>>)
    ensures var (outcome, c') := UpdatedBroker(c, business, id, name, ids);
            && (outcome.Done? <==> && id in c.brokers && c.brokers[id].business == business
                                   && (name.Some? ==> BrokerNameFree(c, business, name.value, Some(id)))
                                   && (ids.Some? ==> AreSuppliersOf(c, business, ids.value)))
            && (outcome.Done? ==>
                  && c'.brokers == c.brokers[id := Broker(business, if name.Some? then Strip(name.value) else c.brokers[id].name)]
                  && (ids.None? ==> c'.suppliers == c.suppliers && c'.links == c.links))
            && (!outcome.Done? ==> c' == c)
  {
    ListedAre(c, business, if ids.Some? then ids.value else []);
  }

  /** A party of the business is deleted exactly if it has no purchases and, for a broker, if it is the primary
      broker of no supplier of the business; a refused deletion changes nothing. */
  lemma DeletedIff(c: Contacts, business: Uuid, id: Uuid, purchases: nat)
    ensures var (outcome, c') := DeletedSupplier(c, business, id, purchases);
            && (outcome.Done? <==> id in c.suppliers && c.suppliers[id].business == business && purchases == 0)
            && (!outcome.Done? ==> c' == c)
    ensures var (outcome, c') := DeletedBroker(c, business, id, purchases);
            && (outcome.Done? <==> && id in c.brokers && c.brokers[id].business == business && purchases == 0
                                   && forall s :: s in c.suppliers && c.suppliers[s].business == business ==> c.suppliers[s].primary != Some(id))
            && (!outcome.Done? ==> c' == c)
  {
  }
}
