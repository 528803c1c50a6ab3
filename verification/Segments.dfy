/** The dictionary of an index in a segment, there and back (src/storage/segment.cpp). */
module SegmentDictionary {
  import opened Basics
  import opened Analysis
  import opened Schemas
  import opened IndexModel
  import opened Views
  import opened MemoryIndex
  import opened VariableBytes
  import opened PostingSections

  // ---- the order of the term section ----

  function ListTerms(field: string, dictionary: Dictionary, terms: seq<string>): seq<TermRecord>
    requires forall t :: t in terms ==> t in dictionary
  {
    if terms == [] then []
    else [TermRecord(field, terms[0], dictionary[terms[0]])] + ListTerms(field, dictionary, terms[1..])
  }

  function ListFields(fields: FieldDictionaries, names: seq<string>): seq<TermRecord>
    requires forall f :: f in names ==> f in fields
  {
    if names == [] then []
    else ListTerms(names[0], fields[names[0]], SortedKeys(fields[names[0]].Keys)) + ListFields(fields, names[1..])
  }

  /** Fields in order, terms in order, as the maps iterate. */
  function Listing(fields: FieldDictionaries): seq<TermRecord> {
    ListFields(fields, SortedKeys(fields.Keys))
  }

  // ---- rebuilding the dictionary ----

  function FieldOf(fields: FieldDictionaries, f: string): Dictionary {
    if f in fields then fields[f] else map[]
  }

  /** Each term is put in its field; a repeated one is rejected. */
  function Gather(fields: FieldDictionaries, records: seq<TermRecord>): Option<FieldDictionaries>
    decreases |records|
  {
    if records == [] then Some(fields)
    else
      var r := records[0];
      if r.term in FieldOf(fields, r.field) then None
      else Gather(fields[r.field := FieldOf(fields, r.field)[r.term := r.entry]], records[1..])
  }

  method GatherAll(records: seq<TermRecord>) returns (r: Option<FieldDictionaries>)
    ensures r == Gather(map[], records)
  {
    var fields: FieldDictionaries := map[];
    assert records[0..] == records;
    for i := 0 to |records|
      invariant Gather(fields, records[i..]) == Gather(map[], records)
    {
      var record := records[i];
      assert records[i..][1..] == records[i + 1..];
      var dictionary := FieldOf(fields, record.field);
      if record.term in dictionary { return None; }
      fields := fields[record.field := dictionary[record.term := record.entry]];
    }
    r := Some(fields);
  }

  /** `into` with the listed entries of `from`, one after the other. */
  function Adding<V>(into: map<string, V>, from: map<string, V>, keys: seq<string>): map<string, V>
    requires forall k :: k in keys ==> k in from
    decreases |keys|
  {
    if keys == [] then into else Adding(into[keys[0] := from[keys[0]]], from, keys[1..])
  }

  lemma {:induction false} AddingAt<V>(into: map<string, V>, from: map<string, V>, keys: seq<string>, k: string)
    requires forall key :: key in keys ==> key in from
    ensures k in Adding(into, from, keys) <==> k in into || k in keys
    ensures k in keys ==> Adding(into, from, keys)[k] == from[k]
    ensures k in into && k !in keys ==> Adding(into, from, keys)[k] == into[k]
    decreases |keys|
  {
    if keys != [] {
      AddingAt(into[keys[0] := from[keys[0]]], from, keys[1..], k);
      assert keys == [keys[0]] + keys[1..];
    }
  }

  lemma AddingAll<V>(from: map<string, V>)
    ensures Adding(map[], from, SortedKeys(from.Keys)) == from
  {
    hide Adding, SortedKeys;
    var empty: map<string, V>, keys := map[], SortedKeys(from.Keys);
    forall k ensures k in Adding(empty, from, keys) <==> k in from
             ensures k in from ==> Adding(empty, from, keys)[k] == from[k]
    {
      AddingAt(empty, from, keys, k);
    }
  }

  lemma GatherOne(fields: FieldDictionaries, r: TermRecord, more: seq<TermRecord>)
    requires r.term !in FieldOf(fields, r.field)
    ensures Gather(fields, [r] + more) == Gather(fields[r.field := FieldOf(fields, r.field)[r.term := r.entry]], more)
  {
    assert ([r] + more)[1..] == more;
  }

  function Filled(fields: FieldDictionaries, f: string, dictionary: Dictionary, terms: seq<string>): FieldDictionaries
    requires forall t :: t in terms ==> t in dictionary
  {
    if terms == [] then fields else fields[f := Adding(FieldOf(fields, f), dictionary, terms)]
  }

  lemma FilledStep(fields: FieldDictionaries, f: string, dictionary: Dictionary, terms: seq<string>)
    requires terms != [] && forall t :: t in terms ==> t in dictionary
    ensures Filled(fields[f := FieldOf(fields, f)[terms[0] := dictionary[terms[0]]]], f, dictionary, terms[1..])
      == Filled(fields, f, dictionary, terms)
  {
    var next := fields[f := FieldOf(fields, f)[terms[0] := dictionary[terms[0]]]];
    assert FieldOf(next, f) == FieldOf(fields, f)[terms[0] := dictionary[terms[0]]];
    var all := Adding(FieldOf(fields, f), dictionary, terms);
    assert all == Adding(FieldOf(next, f), dictionary, terms[1..]);
    assert next[f := all] == fields[f := all];
    if terms[1..] == [] { assert all == FieldOf(next, f); }
  }

  lemma {:induction false} GatherTerms(fields: FieldDictionaries, f: string, dictionary: Dictionary,
                                       terms: seq<string>, more: seq<TermRecord>)
    requires forall t :: t in terms ==> t in dictionary && t !in FieldOf(fields, f)
    requires forall i, j :: 0 <= i < j < |terms| ==> terms[i] != terms[j]
    ensures Gather(fields, ListTerms(f, dictionary, terms) + more) == Gather(Filled(fields, f, dictionary, terms), more)
    decreases |terms|
  {
    hide Gather, Filled;
    if terms == [] {
      assert ListTerms(f, dictionary, terms) + more == more;
      assert Filled(fields, f, dictionary, terms) == fields by { FilledNothing(fields, f, dictionary); }
    } else {
      var t, others := terms[0], terms[1..];
      var r := TermRecord(f, t, dictionary[t]);
      var next := fields[f := FieldOf(fields, f)[t := dictionary[t]]];
      assert ListTerms(f, dictionary, terms) + more == [r] + (ListTerms(f, dictionary, others) + more);
      GatherOne(fields, r, ListTerms(f, dictionary, others) + more);
      assert forall i :: 0 <= i < |others| ==> others[i] == terms[i + 1];
      GatherTerms(next, f, dictionary, others, more);
      FilledStep(fields, f, dictionary, terms);
    }
  }

  lemma FilledNothing(fields: FieldDictionaries, f: string, dictionary: Dictionary)
    ensures Filled(fields, f, dictionary, []) == fields
  {
  }

  lemma FilledAll(fields: FieldDictionaries, f: string, dictionary: Dictionary)
    requires f !in fields && dictionary.Keys != {}
    ensures Filled(fields, f, dictionary, SortedKeys(dictionary.Keys)) == fields[f := dictionary]
  {
    hide SortedKeys;
    AddingAll(dictionary);
    assert |SortedKeys(dictionary.Keys)| == |dictionary.Keys|;
  }

  lemma {:induction false} GatherFields(found: FieldDictionaries, fields: FieldDictionaries, names: seq<string>)
    requires forall f :: f in names ==> f in fields && f !in found && fields[f].Keys != {}
    requires forall i, j :: 0 <= i < j < |names| ==> names[i] != names[j]
    ensures Gather(found, ListFields(fields, names)) == Some(Adding(found, fields, names))
    decreases |names|
  {
    hide Gather, ListTerms, SortedKeys, Filled;
    if names == [] {
      GatherNothing(found);
    } else {
      var f, others := names[0], names[1..];
      var dictionary, terms := fields[f], SortedKeys(fields[f].Keys);
      forall i, j | 0 <= i < j < |terms| ensures terms[i] != terms[j] { SortedKeysAscend(dictionary.Keys, i, j); }
      GatherTerms(found, f, dictionary, terms, ListFields(fields, others));
      FilledAll(found, f, dictionary);
      assert forall i :: 0 <= i < |others| ==> others[i] == names[i + 1];
      GatherFields(found[f := dictionary], fields, others);
    }
  }

  lemma GatherNothing(found: FieldDictionaries)
    ensures Gather(found, []) == Some(found)
  {
  }

  /** Listing a dictionary and gathering the list gives the dictionary. */
  lemma GatherInvertsListing(fields: FieldDictionaries)
    requires forall f :: f in fields ==> fields[f].Keys != {}
    ensures Gather(map[], Listing(fields)) == Some(fields)
  {
    hide Gather, ListFields, Adding, SortedKeys;
    var names := SortedKeys(fields.Keys);
    forall i, j | 0 <= i < j < |names| ensures names[i] != names[j] { SortedKeysAscend(fields.Keys, i, j); }
    GatherFields(map[], fields, names);
    AddingAll(fields);
  }

  // ---- the dictionary of a reachable index is one the sections can hold ----

  lemma {:induction false} ListTermsAre(f: string, dictionary: Dictionary, terms: seq<string>)
    requires forall t :: t in terms ==> t in dictionary
    ensures forall r :: r in ListTerms(f, dictionary, terms) ==>
      r.field == f && r.term in dictionary && r.entry == dictionary[r.term]
    decreases |terms|
  {
    if terms != [] { ListTermsAre(f, dictionary, terms[1..]); }
  }

  lemma {:induction false} ListFieldsAre(fields: FieldDictionaries, names: seq<string>)
    requires forall f :: f in names ==> f in fields
    ensures forall r :: r in ListFields(fields, names) ==>
      r.field in fields && r.term in fields[r.field] && r.entry == fields[r.field][r.term]
    decreases |names|
  {
    hide ListTerms;
    if names != [] {
      ListFieldsAre(fields, names[1..]);
      ListTermsAre(names[0], fields[names[0]], SortedKeys(fields[names[0]].Keys));
    }
  }

  lemma {:induction false} IncreasingIs(values: seq<nat>, previous: nat)
    requires Increasing(values) && (values != [] ==> previous < values[0]) && forall i :: 0 <= i < |values| ==>
      values[i] < U32_LIMIT
    ensures IncreasingFrom(values, previous)
    decreases |values|
  {
    if values != [] {
      assert forall i :: 0 <= i < |values[1..]| ==> values[1..][i] == values[i + 1];
      IncreasingIs(values[1..], values[0]);
    }
  }

  /** The posting of a stored document has valid positions. */
  lemma PostingIsValid(schema: Schema, d: Document, f: string, t: string, id: nat)
    requires Storable(schema, d) && ContainsTerm(schema, d, f, t)
    ensures var p := PostingFor(schema, d, f, t, id);
      p.frequency == |p.positions| < U32_LIMIT && ValidPositions(p.positions) && t != ""
  {
    hide FieldTokens, IndexModel.Positions, Storable;
    var tokens := FieldTokens(schema, d, f);
    var positions := IndexModel.Positions(tokens, t);
    FieldPositions(schema, d, f, t);
    PositionsEmptyIff(tokens, t);
    TokensAreDisciplined(schema, d, f);
    forall i | 0 <= i < |positions| ensures positions[i] < U32_LIMIT { PositionsAre(tokens, t, positions[i]); }
    assert forall i :: 0 <= i < |positions[1..]| ==> positions[1..][i] == positions[i + 1];
    IncreasingIs(positions[1..], positions[0]);
    var k :| 0 <= k < |tokens| && tokens[k].term == t;
  }

  lemma TokensAreDisciplined(schema: Schema, d: Document, f: string)
    requires Storable(schema, d)
    ensures |FieldTokens(schema, d, f)| < U32_LIMIT
    ensures forall k :: 0 <= k < |FieldTokens(schema, d, f)| ==> FieldTokens(schema, d, f)[k].term != ""
  {
    var tokens := FieldTokens(schema, d, f);
    if tokens != [] {
      AnalyzeIsDisciplined(schema[f].analyzer.value, d.fields[f]);
      forall k | 0 <= k < |tokens| ensures tokens[k].term != "" { DisciplinedAt(tokens, 0, 0, k); }
    }
  }

  lemma {:induction false} AscendingIsValid(postings: seq<Posting>, previous: nat)
    requires Ascending(postings) && (postings != [] ==> previous < postings[0].doc)
    requires forall p :: p in postings ==>
      p.doc < U32_LIMIT && p.frequency == |p.positions| < U32_LIMIT && ValidPositions(p.positions)
    ensures ValidPostings(postings, previous)
    decreases |postings|
  {
    hide ValidPositions;
    if postings != [] {
      assert postings[0] in postings && forall p :: p in postings[1..] ==> p in postings;
      assert forall i :: 0 <= i < |postings[1..]| ==> postings[1..][i] == postings[i + 1];
      AscendingIsValid(postings[1..], postings[0].doc);
    }
  }

  lemma EntryIsValid(schema: Schema, slots: Slots, f: string, t: string)
    requires |slots| < U32_LIMIT
    requires (forall i :: 0 <= i < |slots| ==> Storable(schema, slots[i])) && Postings(schema, slots, f, t) != []
    ensures t != "" && |Postings(schema, slots, f, t)| < U32_LIMIT && ValidPostings(Postings(schema, slots, f, t), 0)
  {
    hide Postings, FieldTokens, IndexModel.Positions, Storable, ValidPositions, ContainsTerm;
    var list := Postings(schema, slots, f, t);
    PostingsAscend(schema, slots, f, t);
    forall k | 0 <= k < |list|
      ensures list[k].doc < U32_LIMIT && list[k].frequency == |list[k].positions| < U32_LIMIT
      ensures ValidPositions(list[k].positions) && t != ""
    {
      PostingHasSlot(schema, slots, f, t, k);
      PostingIsValid(schema, slots[list[k].doc - 1], f, t, list[k].doc);
    }
    assert list[0] in list;
    AscendingIsValid(list, 0);
    ListIsShort(schema, slots, f, t);
  }

  lemma {:induction false} ListIsShort(schema: Schema, slots: Slots, f: string, t: string)
    ensures |Postings(schema, slots, f, t)| <= |slots|
  {
    hide ContainsTerm, PostingFor;
    if slots != [] { ListIsShort(schema, slots[..|slots| - 1], f, t); }
  }

  lemma SnapshotIsValid(schema: Schema, slots: Slots, fields: FieldDictionaries)
    requires HoldsPostings(schema, slots, fields) && |slots| < U32_LIMIT && forall i :: 0 <= i < |slots| ==>
      Storable(schema, slots[i])
    ensures ValidRecords(Listing(fields)) && forall f :: f in fields ==> fields[f].Keys != {}
  {
    hide Postings, Storable, ValidPostings, ListFields;
    var records := Listing(fields);
    ListFieldsAre(fields, SortedKeys(fields.Keys));
    forall i | 0 <= i < |records| ensures ValidRecord(records[i]) {
      var r := records[i];
      assert r in records;
      assert PostingsIn(fields, r.field, r.term) == Postings(schema, slots, r.field, r.term);
      EntryIsValid(schema, slots, r.field, r.term);
    }
  }

  /** For every reachable index, in either format: writing the sections and reading them back gives
      exactly the term dictionary if it is within the read limits, and is rejected otherwise. */
  lemma DictionaryRoundTrip(limits: SectionLimits, index: InMemoryIndex, compressed: bool)
    requires index.Valid()
    ensures ValidRecords(Listing(index.fields))
    ensures Addressable(Listing(index.fields)) ==>
      match DecodeIndex(limits, EncodeIndex(Listing(index.fields), compressed), compressed)
      case None => !WithinLimits(limits, Listing(index.fields))
      case Some(records) => WithinLimits(limits, Listing(index.fields)) && Gather(map[], records) == Some(index.fields)
  {
    hide DecodeIndex, EncodeIndex, Gather, Listing, HoldsPostings, HoldsRecords, HoldsIds, HoldsStatistics,
         WithinLimits, Addressable;
    SnapshotIsValid(index.schema, index.slots, index.fields);
    GatherInvertsListing(index.fields);
    if Addressable(Listing(index.fields)) { SectionsRoundTrip(limits, Listing(index.fields), compressed); }
  }
}
