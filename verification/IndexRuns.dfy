/** What an index holds after any sequence of puts and erases (src/index/in_memory_index.cpp). */
module IndexRuns {
  import opened Schemas
  import opened IndexModel

  /** The slots after the documents have been offered in turn to an empty index; an erase offers a tombstone. */
  function Offered(schema: Schema, maximum: nat, offers: seq<Document>): Slots
    requires Usable(schema)
  {
    if offers == [] then []
    else
      var n := |offers| - 1;
      After(schema, Offered(schema, maximum, offers[..n]), maximum, offers[n])
  }

  /** Slot by slot the first document, or the same ID with a greater version. */
  ghost predicate Advances(before: Slots, after: Slots) {
    |before| <= |after| && forall i :: 0 <= i < |before| ==>
      after[i] == before[i] || (after[i].id == before[i].id && after[i].version > before[i].version)
  }

  lemma AfterAdvances(schema: Schema, slots: Slots, maximum: nat, d: Document)
    requires Usable(schema) && DistinctIds(slots)
    ensures Advances(slots, After(schema, slots, maximum, d))
  {
    hide Refusal, Store, FieldsAccepted, MetadataAccepted, Analyzable, Usable;
    RefusalIs(schema, slots, maximum, d);
    StoreIs(slots, d);
  }

  lemma {:induction false} OfferedDistinct(schema: Schema, maximum: nat, offers: seq<Document>)
    requires Usable(schema)
    ensures DistinctIds(Offered(schema, maximum, offers)) && |Offered(schema, maximum, offers)| <= maximum
  {
    hide Refusal, Store, Usable, Acceptable;
    if offers != [] {
      var n := |offers| - 1;
      OfferedDistinct(schema, maximum, offers[..n]);
      var slots := Offered(schema, maximum, offers[..n]);
      RefusalIs(schema, slots, maximum, offers[n]);
      StoreIs(slots, offers[n]);
      StoreKeepsDistinct(slots, offers[n]);
      if Acceptable(schema, slots, maximum, offers[n]) { AcceptableHasRoom(schema, slots, maximum, offers[n]); }
    }
  }

  lemma AcceptableHasRoom(schema: Schema, slots: Slots, maximum: nat, d: Document)
    requires Usable(schema) && Acceptable(schema, slots, maximum, d)
    ensures Held(slots, d.id) || |slots| < maximum
  {
  }

  /** Over every run the version in a slot strictly increases whenever the slot changes, and no slot
      goes away or changes its document ID. */
  lemma {:induction false} VersionsIncrease(schema: Schema, maximum: nat, offers: seq<Document>, k: nat)
    requires Usable(schema) && k <= |offers|
    ensures Advances(Offered(schema, maximum, offers[..k]), Offered(schema, maximum, offers))
    decreases |offers|
  {
    hide After, Usable;
    if k == |offers| {
      assert offers[..k] == offers;
    } else {
      var n := |offers| - 1;
      assert offers[..n][..k] == offers[..k];
      VersionsIncrease(schema, maximum, offers[..n], k);
      OfferedDistinct(schema, maximum, offers[..n]);
      AfterAdvances(schema, Offered(schema, maximum, offers[..n]), maximum, offers[n]);
    }
  }

  /** `d` was offered at place `k`, is storable, and every storable document of its ID offered anywhere
      is older, or of the same version and not offered before `k`. */
  ghost predicate NewestOffered(schema: Schema, offers: seq<Document>, k: nat, d: Document) {
    && k < |offers| && offers[k] == d && Storable(schema, d)
    && forall j :: 0 <= j < |offers| && offers[j].id == d.id && Storable(schema, offers[j]) ==>
      offers[j].version < d.version || (offers[j].version == d.version && k <= j)
  }

  /** The newest storable document of its ID, and the first one offered with that version. */
  ghost predicate IsNewest(schema: Schema, offers: seq<Document>, d: Document) {
    exists k :: NewestOffered(schema, offers, k, d)
  }

  /** The slots are the newest storable offers, one for each ID, unless the internal IDs have run out. */
  ghost predicate HoldsNewest(schema: Schema, maximum: nat, offers: seq<Document>, slots: Slots) {
    && (forall i :: 0 <= i < |slots| ==> IsNewest(schema, offers, slots[i]))
    && (|slots| < maximum ==>
        forall j :: 0 <= j < |offers| && Storable(schema, offers[j]) ==> Held(slots, offers[j].id))
  }

  /** After every run of puts and erases each slot holds the newest version of its document among all
      that could be stored, the first one offered if that version came more than once; every storable
      document has a slot as long as internal IDs are left. */
  lemma {:induction false} RunHoldsNewest(schema: Schema, maximum: nat, offers: seq<Document>)
    requires Usable(schema)
    ensures DistinctIds(Offered(schema, maximum, offers)) && |Offered(schema, maximum, offers)| <= maximum
    ensures HoldsNewest(schema, maximum, offers, Offered(schema, maximum, offers))
  {
    hide After, HoldsNewest, Usable;
    OfferedDistinct(schema, maximum, offers);
    if offers == [] {
      NothingOffered(schema, maximum);
    } else {
      var n := |offers| - 1;
      RunHoldsNewest(schema, maximum, offers[..n]);
      var slots := Offered(schema, maximum, offers[..n]);
      assert offers == offers[..n] + [offers[n]];
      OneMoreOffer(schema, maximum, offers[..n], slots, offers[n]);
    }
  }

  lemma NothingOffered(schema: Schema, maximum: nat)
    ensures HoldsNewest(schema, maximum, [], [])
  {
  }

  lemma OneMoreOffer(schema: Schema, maximum: nat, offers: seq<Document>, slots: Slots, d: Document)
    requires Usable(schema) && DistinctIds(slots) && HoldsNewest(schema, maximum, offers, slots)
    ensures HoldsNewest(schema, maximum, offers + [d], After(schema, slots, maximum, d))
  {
    hide Refusal, Store, Storable, Usable, FieldsAccepted, MetadataAccepted, Analyzable, NewestOffered;
    RefusalIs(schema, slots, maximum, d);
    StoreIs(slots, d);
    AcceptableMeans(schema, slots, maximum, d);
    var after, more := After(schema, slots, maximum, d), offers + [d];
    forall i | 0 <= i < |after| ensures IsNewest(schema, more, after[i]) {
      if i < |slots| && after[i] == slots[i] {
        var k :| NewestOffered(schema, offers, k, slots[i]);
        StaysNewest(schema, offers, k, slots[i], d);
      } else {
        NewestNow(schema, maximum, offers, slots, d);
      }
    }
    if |after| < maximum {
      forall j | 0 <= j < |more| && Storable(schema, more[j]) ensures Held(after, more[j].id) {
        if j < |offers| {
          assert more[j] == offers[j] && Held(slots, offers[j].id);
          var i :| 0 <= i < |slots| && slots[i].id == more[j].id;
          assert after[i].id == more[j].id;
        } else {
          NowHeld(schema, maximum, slots, d);
        }
      }
    }
  }

  lemma AcceptableMeans(schema: Schema, slots: Slots, maximum: nat, d: Document)
    requires Usable(schema)
    ensures Acceptable(schema, slots, maximum, d) <==>
      Storable(schema, d) && Newer(slots, d) && (Held(slots, d.id) || |slots| < maximum)
  {
  }

  lemma StaysNewest(schema: Schema, offers: seq<Document>, k: nat, e: Document, d: Document)
    requires NewestOffered(schema, offers, k, e)
    requires d.id == e.id && Storable(schema, d) ==> d.version <= e.version
    ensures NewestOffered(schema, offers + [d], k, e)
  {
    hide Storable;
  }

  /** An accepted document is newer than every storable one of its ID offered before. */
  lemma NewestNow(schema: Schema, maximum: nat, offers: seq<Document>, slots: Slots, d: Document)
    requires Usable(schema) && HoldsNewest(schema, maximum, offers, slots) && Acceptable(schema, slots, maximum, d)
    ensures NewestOffered(schema, offers + [d], |offers|, d)
  {
    hide Storable;
    AcceptableMeans(schema, slots, maximum, d);
    forall j | 0 <= j < |offers| && offers[j].id == d.id && Storable(schema, offers[j])
      ensures offers[j].version < d.version
    {
      assert Held(slots, d.id);
      var i :| 0 <= i < |slots| && slots[i].id == d.id;
      var k :| NewestOffered(schema, offers, k, slots[i]);
    }
  }

  lemma NowHeld(schema: Schema, maximum: nat, slots: Slots, d: Document)
    requires Usable(schema) && DistinctIds(slots) && Storable(schema, d)
    requires |After(schema, slots, maximum, d)| < maximum
    ensures Held(After(schema, slots, maximum, d), d.id)
  {
    hide Refusal, Store, Storable, Acceptable;
    RefusalIs(schema, slots, maximum, d);
    StoreIs(slots, d);
    AcceptableMeans(schema, slots, maximum, d);
    var after := After(schema, slots, maximum, d);
    if i :| 0 <= i < |slots| && slots[i].id == d.id {
      assert after[i].id == d.id;
    } else {
      assert after[|slots|] == d;
    }
  }
}
