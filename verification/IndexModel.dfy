/** What an inverted index has to hold: everything below is computed from the documents alone,
    by scanning them slot by slot. Slot i is the document with internal ID i + 1. */
module IndexModel {
  import opened Basics
  import opened Analysis
  import opened Schemas

  datatype Posting = Posting(doc: nat, frequency: nat, positions: seq<nat>)
  datatype TermEntry = TermEntry(documentFrequency: nat, postings: seq<Posting>)

  datatype DocumentRecord = DocumentRecord(
    internalId: nat,
    document: Document,
    fieldLengths: map<string, nat>,
    indexedTerms: map<string, seq<string>>)

  /** The documents in order of internal ID, tombstones included. */
  type Slots = seq<Document>

  // ---- one document ----

  predicate HasField(schema: Schema, d: Document, f: string) {
    !d.deleted && f in d.fields && f in schema && schema[f].indexed
  }

  function FieldTokens(schema: Schema, d: Document, f: string): seq<Token> {
    if HasField(schema, d, f) && schema[f].analyzer.Some? then
      match Analyze(schema[f].analyzer.value, d.fields[f])
      case Some(tokens) => tokens
      case None => []
    else []
  }

  function Positions(tokens: seq<Token>, term: string): seq<nat> {
    if tokens == [] then []
    else
      var n := |tokens| - 1;
      Positions(tokens[..n], term) + if tokens[n].term == term then [tokens[n].position] else []
  }

  function Terms(tokens: seq<Token>): (s: set<string>) {
    set i | 0 <= i < |tokens| :: tokens[i].term
  }

  predicate ContainsTerm(schema: Schema, d: Document, f: string, t: string) {
    t in Terms(FieldTokens(schema, d, f))
  }

  function PostingFor(schema: Schema, d: Document, f: string, t: string, id: nat): Posting {
    var positions := Positions(FieldTokens(schema, d, f), t);
    Posting(id, |positions|, positions)
  }

  function FieldLengths(schema: Schema, d: Document): map<string, nat> {
    map f | f in d.fields && HasField(schema, d, f) :: |FieldTokens(schema, d, f)|
  }

  function IndexedTerms(schema: Schema, d: Document): map<string, seq<string>> {
    map f | f in d.fields && HasField(schema, d, f) :: SortedKeys(Terms(FieldTokens(schema, d, f)))
  }

  function RecordFor(schema: Schema, d: Document, id: nat): DocumentRecord {
    DocumentRecord(id, d, FieldLengths(schema, d), IndexedTerms(schema, d))
  }

  lemma {:induction false} PositionsEmptyIff(tokens: seq<Token>, term: string)
    ensures Positions(tokens, term) == [] <==> term !in Terms(tokens)
    ensures |Positions(tokens, term)| <= |tokens|
  {
    if tokens != [] {
      var n := |tokens| - 1;
      PositionsEmptyIff(tokens[..n], term);
      assert Terms(tokens) == Terms(tokens[..n]) + {tokens[n].term} by {
        assert tokens == tokens[..n] + [tokens[n]];
      }
    }
  }

  // ---- the whole corpus ----

  /** What slot `i` alone contributes to a posting list. */
  function Own(schema: Schema, d: Document, f: string, t: string, id: nat): (r: seq<Posting>)
    ensures r == [] || (|r| == 1 && r[0].doc == id)
  {
    if ContainsTerm(schema, d, f, t) then [PostingFor(schema, d, f, t, id)] else []
  }

  /** The posting list of a term, rebuilt by a scan of the documents. */
  function Postings(schema: Schema, slots: Slots, f: string, t: string): seq<Posting> {
    if slots == [] then []
    else
      var n := |slots| - 1;
      Postings(schema, slots[..n], f, t) + Own(schema, slots[n], f, t, n + 1)
  }

  /** What a lookup answers: the postings of `local` with the document frequency of `global`.
      A single index is the case where both are its own documents. */
  function TermEntryOf(schema: Schema, local: Slots, global: Slots, f: string, t: string): Option<TermEntry> {
    var postings := Postings(schema, local, f, t);
    if |postings| == 0 then None else Some(TermEntry(|Postings(schema, global, f, t)|, postings))
  }

  /** Number of live documents that have the field. */
  function FieldCount(schema: Schema, slots: Slots, f: string): nat {
    if slots == [] then 0
    else
      var n := |slots| - 1;
      FieldCount(schema, slots[..n], f) + if HasField(schema, slots[n], f) then 1 else 0
  }

  /** Total analysed length of the field over the live documents. */
  function FieldTotal(schema: Schema, slots: Slots, f: string): nat {
    if slots == [] then 0
    else
      var n := |slots| - 1;
      FieldTotal(schema, slots[..n], f) + |FieldTokens(schema, slots[n], f)|
  }

  function LiveIds(slots: Slots): seq<nat> {
    if slots == [] then []
    else
      var n := |slots| - 1;
      LiveIds(slots[..n]) + if slots[n].deleted then [] else [n + 1]
  }

  ghost predicate DistinctIds(slots: Slots) {
    forall i, j :: 0 <= i < j < |slots| ==> slots[i].id != slots[j].id
  }

  function Find(slots: Slots, id: string): (r: Option<nat>)
    ensures r.Some? ==> r.value < |slots| && slots[r.value].id == id
    ensures r.None? ==> forall i :: 0 <= i < |slots| ==> slots[i].id != id
  {
    if slots == [] then None
    else if slots[|slots| - 1].id == id then Some(|slots| - 1)
    else Find(slots[..|slots| - 1], id)
  }

  // ---- accepting a document ----

  datatype IndexError =
    | EmptyDocumentId | StaleVersion | SchemaError | InternalIdExhausted
    | AnalysisFailed | FieldLengthOverflow

  predicate FieldsAccepted(schema: Schema, d: Document) {
    forall f :: f in d.fields ==> ValidValue(schema, f, d.fields[f]) && schema[f].indexed
  }

  predicate MetadataAccepted(schema: Schema, d: Document) {
    forall f :: f in d.metadata ==> ValidValue(schema, f, d.metadata[f]) && schema[f].stored
  }

  predicate Analyzable(schema: Schema, d: Document)
    requires Usable(schema) && FieldsAccepted(schema, d)
  {
    d.deleted ||
    forall f :: f in d.fields ==> Analyze(schema[f].analyzer.value, d.fields[f]).Some?
  }

  predicate Storable(schema: Schema, d: Document) {
    Usable(schema) && d.id != "" && FieldsAccepted(schema, d) && MetadataAccepted(schema, d) && Analyzable(schema, d)
  }

  /** Why a put of `d` is refused, if it is; internal IDs run from 1 to `maximum`. */
  function Refusal(schema: Schema, slots: Slots, maximum: nat, d: Document): Option<IndexError>
    requires Usable(schema)
  {
    if d.id == "" then Some(EmptyDocumentId)
    else if Find(slots, d.id).Some? && d.version <= slots[Find(slots, d.id).value].version then Some(StaleVersion)
    else if !FieldsAccepted(schema, d) || !MetadataAccepted(schema, d) then Some(SchemaError)
    else if Find(slots, d.id).None? && |slots| >= maximum then Some(InternalIdExhausted)
    else if !Analyzable(schema, d) then Some(AnalysisFailed)
    else None
  }

  /** The corpus after `d` is stored: its slot is reused, a new document takes the next one. */
  function Store(slots: Slots, d: Document): Slots {
    match Find(slots, d.id)
    case Some(i) => slots[i := d]
    case None => slots + [d]
  }

  /** The corpus after `d` is offered: stored, or refused without a trace. */
  function After(schema: Schema, slots: Slots, maximum: nat, d: Document): Slots
    requires Usable(schema)
  {
    if Refusal(schema, slots, maximum, d).None? then Store(slots, d) else slots
  }

  ghost predicate Held(slots: Slots, id: string) {
    exists i :: 0 <= i < |slots| && slots[i].id == id
  }

  /** Whatever is stored under the ID of `d` is older. */
  ghost predicate Newer(slots: Slots, d: Document) {
    forall i :: 0 <= i < |slots| && slots[i].id == d.id ==> slots[i].version < d.version
  }

  /** What an index accepts: the ID is not empty, everything stored under it is older, fields and metadata
      are allowed by the schema, an internal ID is held or free and the text analyses. */
  ghost predicate Acceptable(schema: Schema, slots: Slots, maximum: nat, d: Document)
    requires Usable(schema)
  {
    && d.id != "" && Newer(slots, d)
    && (forall f :: f in d.fields ==> ValidValue(schema, f, d.fields[f]) && schema[f].indexed)
    && (forall f :: f in d.metadata ==> ValidValue(schema, f, d.metadata[f]) && schema[f].stored)
    && (Held(slots, d.id) || |slots| < maximum)
    && (d.deleted || forall f :: f in d.fields ==> Analyze(schema[f].analyzer.value, d.fields[f]).Some?)
  }

  lemma AcceptableIs(schema: Schema, slots: Slots, maximum: nat, d: Document)
    requires Usable(schema)
    ensures Acceptable(schema, slots, maximum, d) <==>
      && d.id != "" && Newer(slots, d) && FieldsAccepted(schema, d) && MetadataAccepted(schema, d)
      && (Held(slots, d.id) || |slots| < maximum) && Analyzable(schema, d)
  {
    hide ValidValue, Analyze;
  }

  /** Nothing is refused but for these conditions; each error means that its own fails and the earlier
      ones hold. */
  lemma RefusalIs(schema: Schema, slots: Slots, maximum: nat, d: Document)
    requires Usable(schema) && DistinctIds(slots)
    ensures var r := Refusal(schema, slots, maximum, d);
      var named, newer := d.id != "", Newer(slots, d);
      var allowed, room := FieldsAccepted(schema, d) && MetadataAccepted(schema, d),
                           Held(slots, d.id) || |slots| < maximum;
      && (r == None <==> Acceptable(schema, slots, maximum, d))
      && (r == Some(EmptyDocumentId) <==> !named)
      && (r == Some(StaleVersion) <==> named && !newer)
      && (r == Some(SchemaError) <==> named && newer && !allowed)
      && (r == Some(InternalIdExhausted) <==> named && newer && allowed && !room)
      && (r == Some(AnalysisFailed) <==> named && newer && allowed && room && !Analyzable(schema, d))
  {
    AcceptableIs(schema, slots, maximum, d);
    hide FieldsAccepted, MetadataAccepted, Analyzable, Usable, Acceptable;
    if Find(slots, d.id).Some? { FindDistinct(slots, Find(slots, d.id).value); }
  }

  /** What acceptance does to the slots: the document's own slot is overwritten, or one more is added. */
  lemma StoreIs(slots: Slots, d: Document)
    requires DistinctIds(slots)
    ensures var after := Store(slots, d);
      && |after| == |slots| + (if Held(slots, d.id) then 0 else 1)
      && (forall i :: 0 <= i < |slots| ==> after[i] == if slots[i].id == d.id then d else slots[i])
      && (!Held(slots, d.id) ==> after[|slots|] == d)
  {
  }

  lemma FindDistinct(slots: Slots, i: nat)
    requires DistinctIds(slots) && i < |slots|
    ensures Find(slots, slots[i].id) == Some(i)
  {
  }

  lemma StoreKeepsDistinct(slots: Slots, d: Document)
    requires DistinctIds(slots)
    ensures DistinctIds(Store(slots, d))
  {
  }

  // ---- how a scan changes when one slot changes ----

  function Without(postings: seq<Posting>, id: nat): seq<Posting> {
    if postings == [] then []
    else
      var n := |postings| - 1;
      Without(postings[..n], id) + if postings[n].doc == id then [] else [postings[n]]
  }

  /** One step of the sort by internal ID: `p` goes before the first larger ID from the right. */
  function Insert(postings: seq<Posting>, p: Posting): seq<Posting> {
    if postings == [] || postings[|postings| - 1].doc <= p.doc then postings + [p]
    else Insert(postings[..|postings| - 1], p) + [postings[|postings| - 1]]
  }

  function SortById(postings: seq<Posting>): seq<Posting> {
    if postings == [] then []
    else Insert(SortById(postings[..|postings| - 1]), postings[|postings| - 1])
  }

  ghost predicate Ascending(postings: seq<Posting>) {
    forall i, j :: 0 <= i < j < |postings| ==> postings[i].doc < postings[j].doc
  }

  lemma {:induction false} SortOfAscending(postings: seq<Posting>)
    requires Ascending(postings)
    ensures SortById(postings) == postings
  {
    if postings != [] {
      var n := |postings| - 1;
      SortOfAscending(postings[..n]);
      assert postings == postings[..n] + [postings[n]];
    }
  }

  lemma {:induction false} PostingsAscend(schema: Schema, slots: Slots, f: string, t: string)
    ensures Ascending(Postings(schema, slots, f, t))
    ensures forall p :: p in Postings(schema, slots, f, t) ==> 1 <= p.doc <= |slots|
  {
    if slots != [] {
      PostingsAscend(schema, slots[..|slots| - 1], f, t);
    }
  }

  lemma WithoutAbsent(postings: seq<Posting>, id: nat)
    requires forall p :: p in postings ==> p.doc != id
    ensures Without(postings, id) == postings
  {
    hide Without;
    forall i | 0 <= i < |postings| ensures postings[i].doc != id { assert postings[i] in postings; }
    WithoutNone(postings, id);
  }

  lemma {:induction false} WithoutNone(postings: seq<Posting>, id: nat)
    requires forall i :: 0 <= i < |postings| ==> postings[i].doc != id
    ensures Without(postings, id) == postings
  {
    if postings != [] {
      var n := |postings| - 1;
      WithoutNone(postings[..n], id);
      assert postings == postings[..n] + [postings[n]];
    }
  }

  lemma WithoutLast(postings: seq<Posting>, last: Posting, id: nat)
    ensures Without(postings + [last], id) == Without(postings, id) + if last.doc == id then [] else [last]
  {
    assert (postings + [last])[..|postings|] == postings;
  }

  lemma {:induction false} WithoutMembers(postings: seq<Posting>, id: nat)
    ensures forall p :: p in Without(postings, id) <==> p in postings && p.doc != id
  {
    if postings != [] {
      var n := |postings| - 1;
      WithoutMembers(postings[..n], id);
      assert postings == postings[..n] + [postings[n]];
    }
  }

  lemma InsertBeforeLast(postings: seq<Posting>, last: Posting, p: Posting)
    requires p.doc < last.doc
    ensures Insert(postings + [last], p) == Insert(postings, p) + [last]
  {
    assert (postings + [last])[..|postings|] == postings;
  }

  lemma InsertAtEnd(postings: seq<Posting>, p: Posting)
    requires forall q :: q in postings ==> q.doc < p.doc
    ensures Insert(postings, p) == postings + [p]
  {
    if postings != [] { assert postings[|postings| - 1] in postings; }
  }

  /** A posting list after the posting of one document is replaced: the old one leaves and
      the new one, if any, is sorted in. */
  function Patched(postings: seq<Posting>, id: nat, now: seq<Posting>): seq<Posting> {
    if now == [] then Without(postings, id) else Insert(Without(postings, id), now[0])
  }

  predicate AtMostOne(own: seq<Posting>, id: nat) {
    own == [] || (|own| == 1 && own[0].doc == id)
  }

  lemma PatchLast(head: seq<Posting>, was: seq<Posting>, now: seq<Posting>, id: nat)
    requires forall p :: p in head ==> p.doc < id
    requires AtMostOne(was, id) && AtMostOne(now, id)
    ensures Patched(head + was, id, now) == head + now
  {
    WithoutAbsent(head, id);
    if was == [] {
      assert head + was == head;
    } else {
      assert was == [was[0]];
      WithoutLast(head, was[0], id);
    }
    if now != [] {
      InsertAtEnd(head, now[0]);
      assert now == [now[0]];
    }
  }

  lemma PatchBefore(head: seq<Posting>, last: seq<Posting>, now: seq<Posting>, id: nat, lastId: nat)
    requires AtMostOne(last, lastId) && AtMostOne(now, id) && id < lastId
    ensures Patched(head + last, id, now) == Patched(head, id, now) + last
  {
    if last == [] {
      assert head + last == head && Patched(head, id, now) + last == Patched(head, id, now);
    } else {
      assert last == [last[0]];
      WithoutLast(head, last[0], id);
      if now != [] { InsertBeforeLast(Without(head, id), last[0], now[0]); }
    }
  }

  /** Replacing one document patches every posting list by that document's own postings. */
  lemma {:induction false} PostingsAfterReplace(schema: Schema, slots: Slots, i: nat, d: Document, f: string, t: string)
    requires i < |slots|
    ensures Postings(schema, slots[i := d], f, t)
      == Patched(Postings(schema, slots, f, t), i + 1, Own(schema, d, f, t, i + 1))
    decreases |slots|
  {
    hide Own, Patched;
    var n := |slots| - 1;
    var head := Postings(schema, slots[..n], f, t);
    var last, now := Own(schema, slots[n], f, t, n + 1), Own(schema, d, f, t, i + 1);
    assert Postings(schema, slots, f, t) == head + last;
    PostingsAscend(schema, slots[..n], f, t);
    if i == n {
      assert slots[i := d][..n] == slots[..n];
      PatchLast(head, last, now, n + 1);
    } else {
      assert slots[i := d][..n] == slots[..n][i := d];
      PostingsAfterReplace(schema, slots[..n], i, d, f, t);
      PatchBefore(head, last, now, i + 1, n + 1);
    }
  }

  function Flag(b: bool): int { if b then 1 else 0 }

  lemma {:induction false} CountsAfterReplace(schema: Schema, slots: Slots, i: nat, d: Document, f: string)
    requires i < |slots|
    ensures FieldCount(schema, slots[i := d], f)
      == FieldCount(schema, slots, f) - Flag(HasField(schema, slots[i], f)) + Flag(HasField(schema, d, f))
    ensures FieldTotal(schema, slots[i := d], f)
      == FieldTotal(schema, slots, f) - |FieldTokens(schema, slots[i], f)| + |FieldTokens(schema, d, f)|
    decreases |slots|
  {
    hide HasField, FieldTokens;
    var n := |slots| - 1;
    var next := slots[i := d];
    if i == n {
      assert next[..n] == slots[..n];
    } else {
      assert next[..n] == slots[..n][i := d];
      CountsAfterReplace(schema, slots[..n], i, d, f);
    }
  }

  lemma AfterAppend(schema: Schema, slots: Slots, d: Document, f: string, t: string)
    ensures Postings(schema, slots + [d], f, t)
      == Postings(schema, slots, f, t) + Own(schema, d, f, t, |slots| + 1)
    ensures FieldCount(schema, slots + [d], f) == FieldCount(schema, slots, f) + Flag(HasField(schema, d, f))
    ensures FieldTotal(schema, slots + [d], f) == FieldTotal(schema, slots, f) + |FieldTokens(schema, d, f)|
  {
    assert (slots + [d])[..|slots|] == slots;
  }

  // ---- consistency of the statistics ----

  /** A slot that contributes to a field's statistics is counted in them. */
  lemma {:induction false} SlotIsCounted(schema: Schema, slots: Slots, i: nat, f: string)
    requires i < |slots|
    ensures HasField(schema, slots[i], f) ==> FieldCount(schema, slots, f) > 0
    ensures |FieldTokens(schema, slots[i], f)| <= FieldTotal(schema, slots, f)
    decreases |slots|
  {
    var n := |slots| - 1;
    if i < n { SlotIsCounted(schema, slots[..n], i, f); }
  }

  /** Document frequency never exceeds the field's document count. */
  lemma {:induction false} FrequencyBelowCount(schema: Schema, slots: Slots, f: string, t: string)
    ensures |Postings(schema, slots, f, t)| <= FieldCount(schema, slots, f) <= |slots|
  {
    if slots != [] { FrequencyBelowCount(schema, slots[..|slots| - 1], f, t); }
  }

  /** The running totals fit in 64 bits as long as internal IDs fit in 32. */
  lemma {:induction false} TotalsFit(schema: Schema, slots: Slots, f: string)
    ensures FieldTotal(schema, slots, f) <= |slots| * (U32_LIMIT - 1)
    ensures |slots| < U32_LIMIT ==> FieldTotal(schema, slots, f) < U64_LIMIT
  {
    if slots != [] {
      var n := |slots| - 1;
      TotalsFit(schema, slots[..n], f);
      if FieldTokens(schema, slots[n], f) != [] {
        AnalyzeIsDisciplined(schema[f].analyzer.value, slots[n].fields[f]);
      }
    }
  }
}
