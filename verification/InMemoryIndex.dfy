/** The incremental inverted index (src/index/in_memory_index.cpp). */
module MemoryIndex {
  import opened Basics
  import opened Analysis
  import opened Schemas
  import opened IndexModel
  import opened Views

  type Dictionary = map<string, TermEntry>
  type FieldDictionaries = map<string, Dictionary>
  datatype Accumulator = Accumulator(count: nat, total: nat)

  // ---- reading dictionaries ----

  function DictionaryPostings(dictionary: Dictionary, t: string): seq<Posting> {
    if t in dictionary then dictionary[t].postings else []
  }

  function PostingsIn(fields: FieldDictionaries, f: string, t: string): seq<Posting> {
    if f in fields then DictionaryPostings(fields[f], t) else []
  }

  /** No empty posting list is kept, and each stored frequency is the length of its list. */
  ghost predicate Tidy(dictionary: Dictionary) {
    forall t :: t in dictionary ==>
      |dictionary[t].postings| > 0 && dictionary[t].documentFrequency == |dictionary[t].postings|
  }

  ghost predicate AllTidy(fields: FieldDictionaries) {
    forall f :: f in fields ==> fields[f].Keys != {} && Tidy(fields[f])
  }

  /** The dictionaries hold exactly the rebuilt posting lists. */
  ghost predicate HoldsPostings(schema: Schema, slots: Slots, fields: FieldDictionaries) {
    AllTidy(fields) && forall f, t :: PostingsIn(fields, f, t) == Postings(schema, slots, f, t)
  }

  ghost predicate HoldsStatistics(schema: Schema, slots: Slots, statistics: map<string, Accumulator>) {
    && (forall f :: f in statistics <==> FieldCount(schema, slots, f) > 0)
    && (forall f :: f in statistics ==>
          statistics[f] == Accumulator(FieldCount(schema, slots, f), FieldTotal(schema, slots, f)))
  }

  /** One record per document, keyed by external ID. */
  ghost predicate HoldsRecords(schema: Schema, slots: Slots, documents: map<string, DocumentRecord>) {
    && (forall id :: id in documents ==> exists i :: 0 <= i < |slots| && slots[i].id == id)
    && (forall i :: 0 <= i < |slots| ==>
          slots[i].id in documents && documents[slots[i].id] == RecordFor(schema, slots[i], i + 1))
  }

  /** Internal IDs run from 1 without a gap, and each names its document. */
  ghost predicate HoldsIds(slots: Slots, externalIds: map<nat, string>) {
    forall id ::
      (id in externalIds <==> 1 <= id <= |slots|) && (id in externalIds ==> externalIds[id] == slots[id - 1].id)
  }

  // ---- preparing a document ----

  function TermPositions(tokens: seq<Token>): map<string, seq<nat>> {
    map t | t in Terms(tokens) :: Positions(tokens, t)
  }

  lemma TermsStep(tokens: seq<Token>, token: Token)
    ensures Terms(tokens + [token]) == Terms(tokens) + {token.term}
    ensures forall t ::
      Positions(tokens + [token], t) == Positions(tokens, t) + if token.term == t then [token.position] else []
  {
    var more := tokens + [token];
    assert more[..|tokens|] == tokens;
    forall t | t in Terms(tokens) ensures t in Terms(more) {
      var i :| 0 <= i < |tokens| && tokens[i].term == t;
      assert more[i].term == t;
    }
    assert more[|tokens|].term == token.term;
  }

  /** Groups the tokens of one field by term. */
  method CollectPositions(tokens: seq<Token>) returns (positions: map<string, seq<nat>>)
    ensures positions == TermPositions(tokens)
  {
    hide Positions;
    positions := map[];
    for i := 0 to |tokens|
      invariant positions == TermPositions(tokens[..i])
    {
      var token := tokens[i];
      TermsStep(tokens[..i], token);
      assert tokens[..i + 1] == tokens[..i] + [token];
      PositionsEmptyIff(tokens[..i], token.term);
      var before := if token.term in positions then positions[token.term] else [];
      assert forall t :: t != token.term ==> Positions(tokens[..i], t) + [] == Positions(tokens[..i], t);
      positions := positions[token.term := before + [token.position]];
    }
    assert tokens[..|tokens|] == tokens;
  }

  /** Everything `put` computes about a document before it touches the index. */
  datatype Prepared = Prepared(
    postings: map<string, map<string, seq<nat>>>,
    lengths: map<string, nat>,
    terms: map<string, seq<string>>)

  function PreparedPostings(schema: Schema, d: Document, done: set<string>): map<string, map<string, seq<nat>>> {
    map f | f in done :: TermPositions(FieldTokens(schema, d, f))
  }

  function PreparedLengths(schema: Schema, d: Document, done: set<string>): map<string, nat> {
    map f | f in done :: |FieldTokens(schema, d, f)|
  }

  function PreparedTerms(schema: Schema, d: Document, done: set<string>): map<string, seq<string>> {
    map f | f in done :: SortedKeys(Terms(FieldTokens(schema, d, f)))
  }

  function PreparedFields(schema: Schema, d: Document, done: set<string>): Prepared {
    Prepared(PreparedPostings(schema, d, done), PreparedLengths(schema, d, done), PreparedTerms(schema, d, done))
  }

  lemma PostingsStep(schema: Schema, d: Document, done: set<string>, f: string)
    ensures PreparedPostings(schema, d, done + {f})
      == PreparedPostings(schema, d, done)[f := TermPositions(FieldTokens(schema, d, f))]
  {
    hide FieldTokens, TermPositions;
  }

  lemma LengthsStep(schema: Schema, d: Document, done: set<string>, f: string)
    ensures PreparedLengths(schema, d, done + {f}) == PreparedLengths(schema, d, done)[f := |FieldTokens(schema, d, f)|]
  {
    hide FieldTokens;
  }

  lemma TermListStep(schema: Schema, d: Document, done: set<string>, f: string)
    ensures PreparedTerms(schema, d, done + {f})
      == PreparedTerms(schema, d, done)[f := SortedKeys(Terms(FieldTokens(schema, d, f)))]
  {
    hide FieldTokens, Terms, SortedKeys;
  }

  lemma PreparedStep(schema: Schema, d: Document, done: set<string>, f: string, p: Prepared, tokens: seq<Token>)
    requires p == PreparedFields(schema, d, done) && tokens == FieldTokens(schema, d, f)
    ensures PreparedFields(schema, d, done + {f}) == Prepared(
        p.postings[f := TermPositions(tokens)],
        p.lengths[f := |tokens|],
        p.terms[f := SortedKeys(TermPositions(tokens).Keys)])
  {
    hide FieldTokens, Terms, SortedKeys, TermPositions, PreparedPostings, PreparedLengths, PreparedTerms;
    TermPositionsKeys(tokens);
    PostingsStep(schema, d, done, f);
    LengthsStep(schema, d, done, f);
    TermListStep(schema, d, done, f);
  }

  lemma TermPositionsKeys(tokens: seq<Token>)
    ensures TermPositions(tokens).Keys == Terms(tokens)
  {
  }

  predicate Analyzes(schema: Schema, d: Document, f: string) {
    f in d.fields && f in schema && schema[f].analyzer.Some? && Analyze(schema[f].analyzer.value, d.fields[f]).Some?
  }

  method Prepare(schema: Schema, d: Document) returns (r: Result<Prepared, IndexError>)
    requires Usable(schema) && FieldsAccepted(schema, d) && !d.deleted
    ensures r == if Analyzable(schema, d) then Ok(PreparedFields(schema, d, d.fields.Keys)) else Err(AnalysisFailed)
  {
    var todo := d.fields.Keys;
    var p := Prepared(map[], map[], map[]);
    while todo != {}
      invariant todo <= d.fields.Keys
      invariant forall f :: f in d.fields.Keys - todo ==> Analyzes(schema, d, f)
      invariant p == PreparedFields(schema, d, d.fields.Keys - todo)
      decreases |todo|
    {
      var f := Least(todo);
      assert d.fields.Keys - todo + {f} == d.fields.Keys - (todo - {f});
      var analyzed := Analyze(schema[f].analyzer.value, d.fields[f]);
      if analyzed.None? { return Err(AnalysisFailed); }
      var tokens := analyzed.value;
      AnalyzeIsDisciplined(schema[f].analyzer.value, d.fields[f]);
      if |tokens| >= U32_LIMIT { return Err(FieldLengthOverflow); }
      assert tokens == FieldTokens(schema, d, f);
      var positions := CollectPositions(tokens);
      PreparedStep(schema, d, d.fields.Keys - todo, f, p, tokens);
      todo := todo - {f};
      p := Prepared(p.postings[f := positions], p.lengths[f := |tokens|], p.terms[f := SortedKeys(positions.Keys)]);
    }
    assert d.fields.Keys - todo == d.fields.Keys;
    assert forall f :: f in d.fields ==> Analyzes(schema, d, f);
    r := Ok(p);
  }

  // ---- taking a document's postings out ----

  /** `r` is `dictionary` with the postings of `id` taken out of the terms in `done`. */
  ghost predicate RemovedFrom(r: Dictionary, dictionary: Dictionary, done: set<string>, id: nat) {
    && Tidy(r)
    && (forall t :: t in done ==> DictionaryPostings(r, t) == Without(DictionaryPostings(dictionary, t), id))
    && (forall t :: t !in done ==> DictionaryPostings(r, t) == DictionaryPostings(dictionary, t))
  }

  function Dropped(dictionary: Dictionary, term: string, id: nat): Dictionary {
    if term !in dictionary then dictionary
    else
      var postings := Without(dictionary[term].postings, id);
      if |postings| == 0 then dictionary - {term} else dictionary[term := TermEntry(|postings|, postings)]
  }

  lemma DroppedIs(r: Dictionary, term: string, id: nat)
    requires Tidy(r)
    ensures Tidy(Dropped(r, term, id))
    ensures DictionaryPostings(Dropped(r, term, id), term) == Without(DictionaryPostings(r, term), id)
    ensures forall t :: t != term ==> DictionaryPostings(Dropped(r, term, id), t) == DictionaryPostings(r, t)
  {
    assert Without([], id) == [];
    hide Without;
  }

  lemma RemoveStep(r: Dictionary, dictionary: Dictionary, done: set<string>, term: string, id: nat)
    requires RemovedFrom(r, dictionary, done, id)
    ensures RemovedFrom(Dropped(r, term, id), dictionary, done + {term}, id)
  {
    hide Without, Dropped, Tidy, DictionaryPostings;
    WithoutTwice(DictionaryPostings(dictionary, term), id);
    DroppedIs(r, term, id);
  }

  lemma WithoutTwice(postings: seq<Posting>, id: nat)
    ensures Without(Without(postings, id), id) == Without(postings, id)
  {
    WithoutMembers(postings, id);
    WithoutAbsent(Without(postings, id), id);
  }

  method RemoveFromField(dictionary: Dictionary, terms: seq<string>, id: nat) returns (r: Dictionary)
    requires Tidy(dictionary)
    ensures RemovedFrom(r, dictionary, (set t | t in terms), id)
  {
    r := dictionary;
    ghost var done: set<string> := {};
    assert RemovedFrom(r, dictionary, done, id);
    hide *;
    for k := 0 to |terms|
      invariant done == set t | t in terms[..k]
      invariant RemovedFrom(r, dictionary, done, id)
    {
      RemoveStep(r, dictionary, done, terms[k], id);
      assert terms[..k + 1] == terms[..k] + [terms[k]];
      done := done + {terms[k]};
      r := Dropped(r, terms[k], id);
    }
    assert terms[..|terms|] == terms;
  }

  predicate SameField(r: FieldDictionaries, fields: FieldDictionaries, f: string) {
    (f in r <==> f in fields) && (f in r ==> r[f] == fields[f])
  }

  /** Field `f` of `r` is field `f` of `fields` with the postings of `id` taken out of `terms`. */
  ghost predicate RemovedIn(r: FieldDictionaries, fields: FieldDictionaries, f: string, terms: seq<string>, id: nat) {
    && (forall t :: t in terms ==> PostingsIn(r, f, t) == Without(PostingsIn(fields, f, t), id))
    && (forall t :: t !in terms ==> PostingsIn(r, f, t) == PostingsIn(fields, f, t))
  }

  ghost predicate Removed(r: FieldDictionaries, fields: FieldDictionaries, terms: map<string, seq<string>>,
                          todo: set<string>, id: nat)
  {
    && AllTidy(r)
    && (forall f :: f in terms && f !in todo ==> RemovedIn(r, fields, f, terms[f], id))
    && (forall f :: f !in terms || f in todo ==> SameField(r, fields, f))
  }

  /** One field's dictionary replaced, or erased once it is empty. */
  function Replaced(r: FieldDictionaries, field: string, dictionary: Dictionary): FieldDictionaries {
    if dictionary.Keys == {} then r - {field} else r[field := dictionary]
  }

  lemma ReplacedIs(r: FieldDictionaries, field: string, dictionary: Dictionary)
    requires AllTidy(r) && Tidy(dictionary)
    ensures AllTidy(Replaced(r, field, dictionary))
    ensures forall t :: PostingsIn(Replaced(r, field, dictionary), field, t) == DictionaryPostings(dictionary, t)
    ensures forall f :: f != field ==> SameField(Replaced(r, field, dictionary), r, f)
  {
    hide Tidy;
  }

  lemma RemoveFieldStep(r: FieldDictionaries, fields: FieldDictionaries, terms: map<string, seq<string>>,
                        todo: set<string>, id: nat, field: string, dictionary: Dictionary)
    requires Removed(r, fields, terms, todo, id) && field in terms && field in todo
    requires field in r ==> RemovedFrom(dictionary, r[field], (set t | t in terms[field]), id)
    ensures Removed(if field in r then Replaced(r, field, dictionary) else r, fields, terms, todo - {field}, id)
  {
    assert Without([], id) == [];
    assert SameField(r, fields, field);
    var next := if field in r then Replaced(r, field, dictionary) else r;
    if field in r {
      assert Tidy(dictionary);
      ReplacedIs(r, field, dictionary);
    }
    hide Without, Replaced;
    assert RemovedIn(next, fields, field, terms[field], id);
    forall f | f in terms && f !in todo ensures RemovedIn(next, fields, f, terms[f], id) {
      assert RemovedIn(r, fields, f, terms[f], id) && SameField(next, r, f);
    }
  }

  method RemovePostings(fields: FieldDictionaries, terms: map<string, seq<string>>, id: nat)
    returns (r: FieldDictionaries)
    requires AllTidy(fields)
    ensures Removed(r, fields, terms, {}, id)
  {
    var todo := terms.Keys;
    r := fields;
    assert Removed(r, fields, terms, todo, id);
    assert forall f :: f in r && AllTidy(r) ==> Tidy(r[f]);
    while todo != {}
      invariant todo <= terms.Keys
      invariant Removed(r, fields, terms, todo, id)
      decreases |todo|
    {
      var field := Least(todo);
      assert AllTidy(r);
      hide *;
      var dictionary: Dictionary := map[];
      if field in r {
        dictionary := RemoveFromField(r[field], terms[field], id);
      }
      RemoveFieldStep(r, fields, terms, todo, id, field, dictionary);
      todo := todo - {field};
      r := if field in r then Replaced(r, field, dictionary) else r;
    }
  }

  // ---- putting a document's postings in ----

  function PostingOf(positions: map<string, seq<nat>>, t: string, id: nat): Posting
    requires t in positions
  {
    Posting(id, |positions[t]|, positions[t])
  }

  function Added(dictionary: Dictionary, term: string, posting: Posting): Dictionary {
    var postings := SortById(DictionaryPostings(dictionary, term) + [posting]);
    dictionary[term := TermEntry(|postings|, postings)]
  }

  lemma SortOfAppend(before: seq<Posting>, posting: Posting)
    requires Ascending(before)
    ensures SortById(before + [posting]) == Insert(before, posting)
  {
    hide Insert;
    SortOfAscending(before);
    assert (before + [posting])[..|before|] == before;
  }

  lemma {:induction false} InsertIsNotEmpty(before: seq<Posting>, posting: Posting)
    ensures |Insert(before, posting)| == |before| + 1
  {
    if before != [] && before[|before| - 1].doc > posting.doc { InsertIsNotEmpty(before[..|before| - 1], posting); }
  }

  lemma AddedIs(dictionary: Dictionary, term: string, posting: Posting)
    requires Tidy(dictionary) && Ascending(DictionaryPostings(dictionary, term))
    ensures Tidy(Added(dictionary, term, posting))
    ensures DictionaryPostings(Added(dictionary, term, posting), term)
      == Insert(DictionaryPostings(dictionary, term), posting)
    ensures forall t :: t != term ==>
      DictionaryPostings(Added(dictionary, term, posting), t) == DictionaryPostings(dictionary, t)
  {
    hide SortById, Insert, Ascending;
    var before := DictionaryPostings(dictionary, term);
    SortOfAppend(before, posting);
    InsertIsNotEmpty(before, posting);
  }

  ghost predicate InstalledFor(r: Dictionary, dictionary: Dictionary, positions: map<string, seq<nat>>,
                               todo: set<string>, id: nat)
  {
    && Tidy(r)
    && (forall t :: t in positions && t !in todo ==>
          DictionaryPostings(r, t) == Insert(DictionaryPostings(dictionary, t), PostingOf(positions, t, id)))
    && (forall t :: t !in positions || t in todo ==> DictionaryPostings(r, t) == DictionaryPostings(dictionary, t))
  }

  lemma InstallStep(r: Dictionary, dictionary: Dictionary, positions: map<string, seq<nat>>,
                    todo: set<string>, id: nat, term: string)
    requires InstalledFor(r, dictionary, positions, todo, id) && term in positions && term in todo
    requires Ascending(DictionaryPostings(dictionary, term))
    ensures InstalledFor(Added(r, term, PostingOf(positions, term, id)), dictionary, positions, todo - {term}, id)
  {
    AddedIs(r, term, PostingOf(positions, term, id));
    hide Added, Insert, PostingOf, Tidy, DictionaryPostings;
  }

  method InstallInField(dictionary: Dictionary, positions: map<string, seq<nat>>, id: nat) returns (r: Dictionary)
    requires Tidy(dictionary)
    requires forall t :: Ascending(DictionaryPostings(dictionary, t))
    ensures InstalledFor(r, dictionary, positions, {}, id)
    ensures dictionary.Keys + positions.Keys <= r.Keys
  {
    var todo := positions.Keys;
    r := dictionary;
    assert InstalledFor(r, dictionary, positions, todo, id);
    hide InstalledFor, Ascending, DictionaryPostings, Least, Tidy;
    while todo != {}
      invariant todo <= positions.Keys
      invariant dictionary.Keys + (positions.Keys - todo) <= r.Keys
      invariant InstalledFor(r, dictionary, positions, todo, id)
      decreases |todo|
    {
      var term := Least(todo);
      InstallStep(r, dictionary, positions, todo, id, term);
      todo := todo - {term};
      r := Added(r, term, PostingOf(positions, term, id));
    }
  }

  ghost predicate AllAscend(fields: FieldDictionaries) {
    forall f, t :: Ascending(PostingsIn(fields, f, t))
  }

  ghost predicate InstalledIn(r: FieldDictionaries, fields: FieldDictionaries, f: string,
                              positions: map<string, seq<nat>>, id: nat)
  {
    && (forall t :: t in positions ==>
        PostingsIn(r, f, t) == Insert(PostingsIn(fields, f, t), PostingOf(positions, t, id)))
    && (forall t :: t !in positions ==> PostingsIn(r, f, t) == PostingsIn(fields, f, t))
  }

  ghost predicate Installed(r: FieldDictionaries, fields: FieldDictionaries, postings: map<string, map<string,
                            seq<nat>>>, todo: set<string>, id: nat)
  {
    && AllTidy(r)
    && (forall f :: f in postings && f !in todo ==> InstalledIn(r, fields, f, postings[f], id))
    && (forall f :: f !in postings || f in todo ==> SameField(r, fields, f))
  }

  lemma InstallFieldStep(r: FieldDictionaries, fields: FieldDictionaries, postings: map<string, map<string, seq<nat>>>,
                         todo: set<string>, id: nat, field: string, dictionary: Dictionary)
    requires Installed(r, fields, postings, todo, id) && field in postings && field in todo
    requires postings[field].Keys != {} ==>
      dictionary.Keys != {} && InstalledFor(dictionary, if field in r then r[field] else map[], postings[field], {}, id)
    ensures Installed(if postings[field].Keys != {} then r[field := dictionary] else r, fields, postings,
                      todo - {field}, id)
  {
    hide Insert, Replaced, Tidy, PostingOf, PostingsIn, InstalledIn, AllTidy, SameField, InstalledFor;
    var next := if postings[field].Keys != {} then r[field := dictionary] else r;
    FieldInstalled(r, fields, field, postings[field], id, dictionary);
    forall f | f in postings && f !in todo ensures InstalledIn(next, fields, f, postings[f], id) {
      SameFieldInstalled(r, next, fields, f, postings[f], id);
    }
    forall f | f !in postings || f in todo - {field}
      ensures SameField(next, fields, f)
    {
      SameFieldTwice(next, r, fields, f);
    }
  }

  lemma SameFieldTwice(a: FieldDictionaries, b: FieldDictionaries, c: FieldDictionaries, f: string)
    requires SameField(a, b, f) && SameField(b, c, f)
    ensures SameField(a, c, f)
  {
  }

  /** One field after its new postings went in. */
  lemma FieldInstalled(r: FieldDictionaries, fields: FieldDictionaries, field: string, positions: map<string,
                       seq<nat>>, id: nat, dictionary: Dictionary)
    requires AllTidy(r) && SameField(r, fields, field)
    requires positions.Keys != {} ==>
      dictionary.Keys != {} && InstalledFor(dictionary, if field in r then r[field] else map[], positions, {}, id)
    ensures var next := if positions.Keys != {} then r[field := dictionary] else r;
      && AllTidy(next) && InstalledIn(next, fields, field, positions, id)
      && forall f :: f != field ==> SameField(next, r, f)
  {
    if positions.Keys != {} {
      assert r[field := dictionary] == Replaced(r, field, dictionary);
      ReplacedIs(r, field, dictionary);
    }
    hide Insert, Replaced, Tidy, PostingOf;
  }

  lemma SameFieldInstalled(r: FieldDictionaries, next: FieldDictionaries, fields: FieldDictionaries, f: string,
                           positions: map<string, seq<nat>>, id: nat)
    requires SameField(next, r, f)
    ensures InstalledIn(r, fields, f, positions, id) ==> InstalledIn(next, fields, f, positions, id)
  {
    assert forall t :: PostingsIn(next, f, t) == PostingsIn(r, f, t);
    hide PostingsIn, Insert;
  }

  method InstallPostings(fields: FieldDictionaries, postings: map<string, map<string, seq<nat>>>, id: nat)
    returns (r: FieldDictionaries)
    requires AllTidy(fields) && AllAscend(fields)
    ensures Installed(r, fields, postings, {}, id)
  {
    var todo := postings.Keys;
    r := fields;
    assert Installed(r, fields, postings, todo, id);
    while todo != {}
      invariant todo <= postings.Keys
      invariant Installed(r, fields, postings, todo, id)
      decreases |todo|
    {
      var field := Least(todo);
      // The source creates the field's dictionary with its first term, so a field without terms adds none.
      var dictionary: Dictionary := if field in r then r[field] else map[];
      ReadyToInstall(r, fields, postings, todo, id, field);
      hide *;
      if postings[field].Keys != {} {
        var term :| term in postings[field];
        dictionary := InstallInField(dictionary, postings[field], id);
        assert term in dictionary;
      }
      InstallFieldStep(r, fields, postings, todo, id, field, dictionary);
      r := if postings[field].Keys != {} then r[field := dictionary] else r;
      todo := todo - {field};
    }
  }

  lemma ReadyToInstall(r: FieldDictionaries, fields: FieldDictionaries, postings: map<string, map<string, seq<nat>>>,
                       todo: set<string>, id: nat, field: string)
    requires Installed(r, fields, postings, todo, id) && field in todo && AllAscend(fields)
    ensures var dictionary: Dictionary := if field in r then r[field] else map[];
      Tidy(dictionary) && forall t :: Ascending(DictionaryPostings(dictionary, t))
  {
    assert SameField(r, fields, field);
    var dictionary: Dictionary := if field in r then r[field] else map[];
    forall t ensures Ascending(DictionaryPostings(dictionary, t)) {
      assert Ascending(PostingsIn(fields, field, t));
    }
  }

  // ---- statistics ----

  function CountOf(statistics: map<string, Accumulator>, f: string): nat {
    if f in statistics then statistics[f].count else 0
  }

  function TotalOf(statistics: map<string, Accumulator>, f: string): nat {
    if f in statistics then statistics[f].total else 0
  }

  function LengthOf(lengths: map<string, nat>, f: string): nat {
    if f in lengths then lengths[f] else 0
  }

  ghost predicate NoZeroCount(statistics: map<string, Accumulator>) {
    forall f :: f in statistics ==> statistics[f].count > 0
  }

  /** The statistics once the lengths `out` are subtracted and the lengths `added` are added. */
  ghost predicate StatisticsMoved(before: map<string, Accumulator>, after: map<string, Accumulator>,
                                  out: map<string, nat>, added: map<string, nat>)
  {
    && NoZeroCount(after)
    && (forall f :: CountOf(after, f) == CountOf(before, f) - Flag(f in out) + Flag(f in added))
    && (forall f :: TotalOf(after, f) == TotalOf(before, f) - LengthOf(out, f) + LengthOf(added, f))
  }

  lemma MovedTwice(a: map<string, Accumulator>, b: map<string, Accumulator>, c: map<string, Accumulator>,
                   out: map<string, nat>, added: map<string, nat>)
    requires StatisticsMoved(a, b, out, map[]) && StatisticsMoved(b, c, map[], added)
    ensures StatisticsMoved(a, c, out, added)
  {
    forall f ensures CountOf(c, f) == CountOf(a, f) - Flag(f in out) + Flag(f in added)
             ensures TotalOf(c, f) == TotalOf(a, f) - LengthOf(out, f) + LengthOf(added, f)
    {
      assert CountOf(c, f) == CountOf(b, f) + Flag(f in added);
    }
  }

  lemma NotMoved(a: map<string, Accumulator>)
    requires NoZeroCount(a)
    ensures StatisticsMoved(a, a, map[], map[])
  {
  }

  /** The fields outside `todo` have been retired. */
  ghost predicate Retired(statistics: map<string, Accumulator>, lengths: map<string, nat>, todo: set<string>,
                          r: map<string, Accumulator>) {
    && NoZeroCount(r)
    && forall f ::
         if f in lengths && f !in todo
           then CountOf(r, f) == CountOf(statistics, f) - 1 && TotalOf(r, f) == TotalOf(statistics, f) - lengths[f]
         else CountOf(r, f) == CountOf(statistics, f) && TotalOf(r, f) == TotalOf(statistics, f)
  }

  lemma RetireStep(statistics: map<string, Accumulator>, lengths: map<string, nat>, todo: set<string>, r: map<string,
                   Accumulator>, field: string)
    requires NoZeroCount(statistics) && Retired(statistics, lengths, todo, r) && field in todo && field in lengths
    requires field in statistics && lengths[field] <= statistics[field].total
    requires CountOf(statistics, field) == 1 ==> TotalOf(statistics, field) == lengths[field]
    ensures field in r && r[field].count >= 1 && r[field].total >= lengths[field]
    ensures var next := Accumulator(r[field].count - 1, r[field].total - lengths[field]);
      Retired(statistics, lengths, todo - {field}, if next.count == 0 then r - {field} else r[field := next])
  {
    assert CountOf(r, field) == CountOf(statistics, field) && TotalOf(r, field) == TotalOf(statistics, field);
  }

  method RetireStatistics(statistics: map<string, Accumulator>, lengths: map<string, nat>)
    returns (r: map<string, Accumulator>)
    requires NoZeroCount(statistics)
    requires forall f :: f in lengths ==> f in statistics && lengths[f] <= statistics[f].total
    requires forall f :: f in lengths && CountOf(statistics, f) == 1 ==> TotalOf(statistics, f) == lengths[f]
    ensures StatisticsMoved(statistics, r, lengths, map[])
  {
    hide Retired, StatisticsMoved, NoZeroCount;
    var todo := lengths.Keys;
    r := statistics;
    RetireBegins(statistics, lengths);
    while todo != {}
      invariant todo <= lengths.Keys && Retired(statistics, lengths, todo, r)
      decreases |todo|
    {
      var field := Least(todo);
      RetireStep(statistics, lengths, todo, r, field);
      if field in r {
        var next := Accumulator(r[field].count - 1, r[field].total - lengths[field]);
        r := if next.count == 0 then r - {field} else r[field := next];
      }
      todo := todo - {field};
    }
    RetireEnds(statistics, lengths, r);
  }

  lemma RetireBegins(statistics: map<string, Accumulator>, lengths: map<string, nat>)
    requires NoZeroCount(statistics)
    ensures Retired(statistics, lengths, lengths.Keys, statistics)
  {
  }

  lemma RetireEnds(statistics: map<string, Accumulator>, lengths: map<string, nat>, r: map<string, Accumulator>)
    requires Retired(statistics, lengths, {}, r)
    ensures StatisticsMoved(statistics, r, lengths, map[])
  {
    hide NoZeroCount;
    forall f ensures CountOf(r, f) == CountOf(statistics, f) - Flag(f in lengths)
      && TotalOf(r, f) == TotalOf(statistics, f) - LengthOf(lengths, f) {}
  }

  /** The fields outside `todo` have been added. */
  ghost predicate AddedUp(statistics: map<string, Accumulator>, lengths: map<string, nat>, todo: set<string>,
                          r: map<string, Accumulator>) {
    && NoZeroCount(r)
    && forall f ::
         if f in lengths && f !in todo
           then CountOf(r, f) == CountOf(statistics, f) + 1 && TotalOf(r, f) == TotalOf(statistics, f) + lengths[f]
         else CountOf(r, f) == CountOf(statistics, f) && TotalOf(r, f) == TotalOf(statistics, f)
  }

  lemma AddStep(statistics: map<string, Accumulator>, lengths: map<string, nat>, todo: set<string>, r: map<string,
                Accumulator>, field: string)
    requires AddedUp(statistics, lengths, todo, r) && field in todo && field in lengths
    ensures AddedUp(statistics, lengths, todo - {field},
                    r[field := Accumulator(CountOf(r, field) + 1, TotalOf(r, field) + lengths[field])])
  {
  }

  method AddStatistics(statistics: map<string, Accumulator>, lengths: map<string, nat>)
    returns (r: map<string, Accumulator>)
    requires NoZeroCount(statistics)
    ensures StatisticsMoved(statistics, r, map[], lengths)
  {
    hide AddedUp, StatisticsMoved, NoZeroCount;
    var todo := lengths.Keys;
    r := statistics;
    AddBegins(statistics, lengths);
    while todo != {}
      invariant todo <= lengths.Keys && AddedUp(statistics, lengths, todo, r)
      decreases |todo|
    {
      var field := Least(todo);
      AddStep(statistics, lengths, todo, r, field);
      r := r[field := Accumulator(CountOf(r, field) + 1, TotalOf(r, field) + lengths[field])];
      todo := todo - {field};
    }
    AddEnds(statistics, lengths, r);
  }

  lemma AddBegins(statistics: map<string, Accumulator>, lengths: map<string, nat>)
    requires NoZeroCount(statistics)
    ensures AddedUp(statistics, lengths, lengths.Keys, statistics)
  {
  }

  lemma AddEnds(statistics: map<string, Accumulator>, lengths: map<string, nat>, r: map<string, Accumulator>)
    requires AddedUp(statistics, lengths, {}, r)
    ensures StatisticsMoved(statistics, r, map[], lengths)
  {
    hide NoZeroCount;
    forall f ensures CountOf(r, f) == CountOf(statistics, f) + Flag(f in lengths)
      && TotalOf(r, f) == TotalOf(statistics, f) + LengthOf(lengths, f) {}
  }

  // ---- the slot of a document ----

  function SlotFor(slots: Slots, id: string): (i: nat)
    ensures i <= |slots|
    ensures i < |slots| ==> slots[i].id == id
  {
    match Find(slots, id)
    case Some(i) => i
    case None => |slots|
  }

  lemma {:induction false} NoPostingOf(schema: Schema, slots: Slots, i: nat, f: string, t: string)
    requires i < |slots| ==> !ContainsTerm(schema, slots[i], f, t)
    ensures forall p :: p in Postings(schema, slots, f, t) ==> p.doc != i + 1
  {
    if |slots| > 0 {
      NoPostingOf(schema, slots[..|slots| - 1], i, f, t);
    }
  }

  lemma StoredPostings(schema: Schema, slots: Slots, d: Document, f: string, t: string)
    ensures var i := SlotFor(slots, d.id);
      Postings(schema, Store(slots, d), f, t)
      == Patched(Postings(schema, slots, f, t), i + 1, Own(schema, d, f, t, i + 1))
  {
    hide Own, Patched, Postings;
    var i := SlotFor(slots, d.id);
    if i < |slots| {
      PostingsAfterReplace(schema, slots, i, d, f, t);
    } else {
      AfterAppend(schema, slots, d, f, t);
      PostingsAscend(schema, slots, f, t);
      PatchLast(Postings(schema, slots, f, t), [], Own(schema, d, f, t, i + 1), i + 1);
      assert Postings(schema, slots, f, t) + [] == Postings(schema, slots, f, t);
    }
  }

  /** The dictionaries once the replaced document, if any, is taken out. */
  ghost predicate OldRemoved(schema: Schema, slots: Slots, i: nat, fields: FieldDictionaries,
                             staged: FieldDictionaries) {
    if i < |slots| && !slots[i].deleted then Removed(staged, fields, IndexedTerms(schema, slots[i]), {}, i + 1)
    else staged == fields
  }

  lemma AfterRemoval(schema: Schema, slots: Slots, i: nat, fields: FieldDictionaries, staged: FieldDictionaries,
                     f: string, t: string)
    requires HoldsPostings(schema, slots, fields) && OldRemoved(schema, slots, i, fields, staged)
    ensures PostingsIn(staged, f, t) == Without(Postings(schema, slots, f, t), i + 1)
  {
    assert PostingsIn(fields, f, t) == Postings(schema, slots, f, t);
    var live := i < |slots| && !slots[i].deleted;
    if !live || !ContainsTerm(schema, slots[i], f, t) {
      NoPostingOf(schema, slots, i, f, t);
      WithoutAbsent(Postings(schema, slots, f, t), i + 1);
    }
    if live {
      var terms := IndexedTerms(schema, slots[i]);
      if f in terms {
        assert RemovedIn(staged, fields, f, terms[f], i + 1);
        assert t in terms[f] <==> ContainsTerm(schema, slots[i], f, t);
      } else {
        assert SameField(staged, fields, f);
      }
    }
  }

  lemma {:induction false} WithoutAscends(postings: seq<Posting>, id: nat)
    requires Ascending(postings)
    ensures Ascending(Without(postings, id))
  {
    if postings != [] {
      var n := |postings| - 1;
      WithoutAscends(postings[..n], id);
      WithoutMembers(postings[..n], id);
    }
  }

  lemma RemovalAscends(schema: Schema, slots: Slots, i: nat, fields: FieldDictionaries, staged: FieldDictionaries)
    requires HoldsPostings(schema, slots, fields) && OldRemoved(schema, slots, i, fields, staged)
    ensures AllTidy(staged) && AllAscend(staged)
  {
    forall f, t ensures Ascending(PostingsIn(staged, f, t)) {
      AfterRemoval(schema, slots, i, fields, staged, f, t);
      PostingsAscend(schema, slots, f, t);
      WithoutAscends(Postings(schema, slots, f, t), i + 1);
    }
  }

  ghost predicate NewInstalled(schema: Schema, d: Document, i: nat, staged: FieldDictionaries,
                               next: FieldDictionaries) {
    if d.deleted then next == staged
    else Installed(next, staged, PreparedFields(schema, d, d.fields.Keys).postings, {}, i + 1)
  }

  lemma AfterInstallation(schema: Schema, d: Document, i: nat, staged: FieldDictionaries, next: FieldDictionaries,
                          f: string, t: string)
    requires NewInstalled(schema, d, i, staged, next)
    ensures PostingsIn(next, f, t) ==
      if ContainsTerm(schema, d, f, t) then Insert(PostingsIn(staged, f, t), PostingFor(schema, d, f, t, i + 1))
      else PostingsIn(staged, f, t)
  {
    if !d.deleted {
      hide Insert;
      var postings := PreparedFields(schema, d, d.fields.Keys).postings;
      if f in postings {
        assert InstalledIn(next, staged, f, postings[f], i + 1);
        assert postings[f] == TermPositions(FieldTokens(schema, d, f));
      } else {
        assert SameField(next, staged, f);
      }
    }
  }

  /** Removing the old postings and installing the new ones gives the dictionaries of a rebuild. */
  lemma InstalledIsTidy(schema: Schema, d: Document, i: nat, staged: FieldDictionaries, next: FieldDictionaries)
    requires NewInstalled(schema, d, i, staged, next) && AllTidy(staged)
    ensures AllTidy(next)
  {
    hide AllTidy, InstalledIn, PreparedFields;
  }

  lemma PutRebuildsPostings(schema: Schema, slots: Slots, d: Document, fields: FieldDictionaries,
                            staged: FieldDictionaries, next: FieldDictionaries)
    requires HoldsPostings(schema, slots, fields)
    requires OldRemoved(schema, slots, SlotFor(slots, d.id), fields, staged)
    requires NewInstalled(schema, d, SlotFor(slots, d.id), staged, next)
    ensures HoldsPostings(schema, Store(slots, d), next)
  {
    hide Postings, ContainsTerm, PostingFor, Store, AllTidy, PostingsIn, Without, Insert, OldRemoved, NewInstalled;
    var i := SlotFor(slots, d.id);
    RemovalAscends(schema, slots, i, fields, staged);
    InstalledIsTidy(schema, d, i, staged, next);
    forall f, t ensures PostingsIn(next, f, t) == Postings(schema, Store(slots, d), f, t) {
      AfterRemoval(schema, slots, i, fields, staged, f, t);
      AfterInstallation(schema, d, i, staged, next, f, t);
      StoredPostings(schema, slots, d, f, t);
    }
  }

  // ---- statistics after a put ----

  ghost predicate StatisticsMatch(schema: Schema, slots: Slots, statistics: map<string, Accumulator>) {
    && NoZeroCount(statistics)
    && (forall f :: CountOf(statistics, f) == FieldCount(schema, slots, f))
    && (forall f :: TotalOf(statistics, f) == FieldTotal(schema, slots, f))
  }

  lemma {:induction false} NoFieldNoLength(schema: Schema, slots: Slots, f: string)
    requires FieldCount(schema, slots, f) == 0
    ensures FieldTotal(schema, slots, f) == 0
  {
    if slots != [] { NoFieldNoLength(schema, slots[..|slots| - 1], f); }
  }

  lemma MatchIsHolds(schema: Schema, slots: Slots, statistics: map<string, Accumulator>)
    ensures StatisticsMatch(schema, slots, statistics) <==> HoldsStatistics(schema, slots, statistics)
  {
    hide FieldCount, FieldTotal;
    if StatisticsMatch(schema, slots, statistics) {
      forall f ensures f in statistics <==> FieldCount(schema, slots, f) > 0 {
        assert CountOf(statistics, f) == FieldCount(schema, slots, f);
      }
      forall f | f in statistics
        ensures statistics[f] == Accumulator(FieldCount(schema, slots, f), FieldTotal(schema, slots, f))
      {
        assert CountOf(statistics, f) == FieldCount(schema, slots, f);
        assert TotalOf(statistics, f) == FieldTotal(schema, slots, f);
      }
    }
    if HoldsStatistics(schema, slots, statistics) {
      forall f ensures CountOf(statistics, f) == FieldCount(schema, slots, f)
               ensures TotalOf(statistics, f) == FieldTotal(schema, slots, f)
      {
        if f !in statistics { NoFieldNoLength(schema, slots, f); }
      }
    }
  }

  function Tombstone(d: Document): Document {
    Document(d.id, map[], map[], d.version, true)
  }

  /** The old document's lengths can be subtracted without underflow, and a last one leaves nothing. */
  lemma CanRetire(schema: Schema, slots: Slots, i: nat, f: string)
    requires i < |slots| && f in FieldLengths(schema, slots[i])
    ensures FieldCount(schema, slots, f) >= 1
    ensures FieldLengths(schema, slots[i])[f] <= FieldTotal(schema, slots, f)
    ensures FieldCount(schema, slots, f) == 1 ==> FieldTotal(schema, slots, f) == FieldLengths(schema, slots[i])[f]
  {
    var gone := slots[i := Tombstone(slots[i])];
    CountsAfterReplace(schema, slots, i, Tombstone(slots[i]), f);
    if FieldCount(schema, slots, f) == 1 { NoFieldNoLength(schema, gone, f); }
  }

  lemma LengthsAre(schema: Schema, d: Document, f: string)
    ensures Flag(f in FieldLengths(schema, d)) == Flag(HasField(schema, d, f))
    ensures LengthOf(FieldLengths(schema, d), f) == |FieldTokens(schema, d, f)|
  {
  }

  lemma PutRebuildsStatistics(schema: Schema, slots: Slots, d: Document,
                              statistics: map<string, Accumulator>, next: map<string, Accumulator>)
    requires HoldsStatistics(schema, slots, statistics)
    requires var i := SlotFor(slots, d.id);
      StatisticsMoved(statistics, next, if i < |slots| then FieldLengths(schema, slots[i]) else map[],
                      FieldLengths(schema, d))
    ensures HoldsStatistics(schema, Store(slots, d), next)
  {
    var i := SlotFor(slots, d.id);
    MatchIsHolds(schema, slots, statistics);
    forall f ensures CountOf(next, f) == FieldCount(schema, Store(slots, d), f)
             ensures TotalOf(next, f) == FieldTotal(schema, Store(slots, d), f)
    {
      LengthsAre(schema, d, f);
      assert CountOf(statistics, f) == FieldCount(schema, slots, f);
      if i < |slots| {
        LengthsAre(schema, slots[i], f);
        CountsAfterReplace(schema, slots, i, d, f);
      } else {
        AfterAppend(schema, slots, d, f, "");
      }
    }
    MatchIsHolds(schema, Store(slots, d), next);
  }

  // ---- documents after a put ----

  /** `next` is `slots` with `d` in slot `i`, a new one or one that held the same document. */
  ghost predicate Updated(slots: Slots, next: Slots, i: nat, d: Document) {
    && DistinctIds(slots) && DistinctIds(next)
    && i <= |slots| && |next| == (if i < |slots| then |slots| else |slots| + 1)
    && next[i] == d && (i < |slots| ==> slots[i].id == d.id)
    && (forall k :: 0 <= k < |slots| && k != i ==> next[k] == slots[k])
  }

  lemma StoreUpdates(slots: Slots, d: Document)
    requires DistinctIds(slots)
    ensures Updated(slots, Store(slots, d), SlotFor(slots, d.id), d)
  {
    StoreKeepsDistinct(slots, d);
  }

  lemma PutKeepsRecords(schema: Schema, slots: Slots, next: Slots, i: nat, d: Document, documents: map<string,
                        DocumentRecord>)
    requires HoldsRecords(schema, slots, documents) && Updated(slots, next, i, d)
    ensures HoldsRecords(schema, next, documents[d.id := RecordFor(schema, d, i + 1)])
  {
    hide RecordFor;
    var docs := documents[d.id := RecordFor(schema, d, i + 1)];
    forall k | 0 <= k < |next| ensures next[k].id in docs && docs[next[k].id] == RecordFor(schema, next[k], k + 1) {
      if k < i { assert next[k].id != next[i].id; }
      if k > i { assert next[i].id != next[k].id; }
    }
    forall id | id in docs ensures exists k :: 0 <= k < |next| && next[k].id == id {
      if id == d.id {
        assert next[i].id == id;
      } else {
        var k :| 0 <= k < |slots| && slots[k].id == id;
        assert next[k].id == id;
      }
    }
  }

  lemma PutKeepsIds(slots: Slots, next: Slots, i: nat, d: Document, externalIds: map<nat, string>)
    requires HoldsIds(slots, externalIds) && Updated(slots, next, i, d)
    ensures HoldsIds(next, externalIds[i + 1 := d.id])
  {
    hide DistinctIds;
    var ids := externalIds[i + 1 := d.id];
    forall id: nat ensures (id in ids <==> 1 <= id <= |next|) && (id in ids ==> ids[id] == next[id - 1].id) {
      if id != i + 1 && 1 <= id <= |slots| { assert next[id - 1] == slots[id - 1]; }
    }
  }

  lemma RefusedUnless(schema: Schema, slots: Slots, maximum: nat, d: Document)
    requires Usable(schema) && DistinctIds(slots)
    ensures Refusal(schema, slots, maximum, d).None? <==> Acceptable(schema, slots, maximum, d)
    ensures After(schema, slots, maximum, d)
      == if Refusal(schema, slots, maximum, d).None? then Store(slots, d) else slots
  {
    hide Refusal, Acceptable;
    RefusalIs(schema, slots, maximum, d);
  }

  /** Each external ID finds its record, and each record its slot. */
  lemma RecordOfId(schema: Schema, slots: Slots, documents: map<string, DocumentRecord>, id: string)
    requires HoldsRecords(schema, slots, documents) && DistinctIds(slots)
    ensures id in documents <==> Find(slots, id).Some?
    ensures id in documents ==>
      documents[id] == RecordFor(schema, slots[Find(slots, id).value], Find(slots, id).value + 1)
  {
    hide RecordFor;
    if id in documents {
      var i :| 0 <= i < |slots| && slots[i].id == id;
      FindDistinct(slots, i);
    }
  }

  /** The document has state in the index only if it is live. */
  lemma DeletedHasNothing(schema: Schema, d: Document)
    requires d.deleted
    ensures FieldLengths(schema, d) == map[] && IndexedTerms(schema, d) == map[]
  {
  }

  lemma PreparedIsRecord(schema: Schema, d: Document)
    requires Usable(schema) && FieldsAccepted(schema, d) && !d.deleted
    ensures var p := PreparedFields(schema, d, d.fields.Keys);
      p.lengths == FieldLengths(schema, d) && p.terms == IndexedTerms(schema, d)
  {
    hide FieldTokens, Terms, SortedKeys;
    assert forall f :: f in d.fields ==> HasField(schema, d, f);
  }

  lemma LiveBegins(slots: Slots)
    ensures LiveIds(slots[..0]) == []
  {
  }

  lemma LiveStep(slots: Slots, i: nat)
    requires i < |slots|
    ensures LiveIds(slots[..i + 1]) == LiveIds(slots[..i]) + if slots[i].deleted then [] else [i + 1]
  {
    assert slots[..i + 1][..i] == slots[..i];
  }

  lemma RecordAt(schema: Schema, slots: Slots, documents: map<string, DocumentRecord>, externalIds: map<nat, string>,
                 id: nat)
    requires HoldsRecords(schema, slots, documents) && HoldsIds(slots, externalIds) && id in externalIds
    ensures 1 <= id <= |slots| && externalIds[id] in documents && documents[externalIds[id]].document == slots[id - 1]
  {
  }

  class InMemoryIndex {
    const schema: Schema
    const maximumId: nat
    var fields: FieldDictionaries
    var documents: map<string, DocumentRecord>
    var externalIds: map<nat, string>
    var statistics: map<string, Accumulator>
    var nextId: nat

    /** The documents the index stands for; everything else must be what a rebuild from them gives. */
    ghost var slots: Slots

    ghost predicate Valid()
      reads this
    {
      && Usable(schema) && maximumId < U32_LIMIT
      && DistinctIds(slots) && |slots| <= maximumId
      && nextId == (if |slots| + 1 == U32_LIMIT then 0 else |slots| + 1)
      && (forall i :: 0 <= i < |slots| ==> Storable(schema, slots[i]))
      && HoldsRecords(schema, slots, documents)
      && HoldsIds(slots, externalIds)
      && HoldsPostings(schema, slots, fields)
      && HoldsStatistics(schema, slots, statistics)
    }

    constructor (schema: Schema, maximumId: nat)
      requires Usable(schema) && maximumId < U32_LIMIT
      ensures Valid() && slots == []
      ensures this.schema == schema && this.maximumId == maximumId
    {
      this.schema, this.maximumId := schema, maximumId;
      fields, documents, externalIds, statistics, nextId := map[], map[], map[], map[], 1;
      slots := [];
    }

    /** A refused document changes nothing; an accepted one leaves the index equal to a rebuild
        from the corpus with that document stored. */
    method Put(d: Document) returns (r: Result<(), IndexError>)
      requires Valid()
      modifies this
      ensures Valid()
      ensures match Refusal(schema, old(slots), maximumId, d)
        case Some(e) => r == Err(e) && unchanged(this)
        case None => r == Ok(()) && slots == Store(old(slots), d)
      ensures r.Ok? <==> Acceptable(schema, old(slots), maximumId, d)
      ensures slots == After(schema, old(slots), maximumId, d)
    {
      hide HoldsRecords, HoldsIds, HoldsPostings, HoldsStatistics, DistinctIds, Find, Acceptable, Newer, Held,
           FieldsAccepted, MetadataAccepted, Analyzable, FieldLengths, IndexedTerms, PreparedFields, Usable;
      RefusedUnless(schema, slots, maximumId, d);
      if d.id == "" { return Err(EmptyDocumentId); }
      RecordOfId(schema, slots, documents, d.id);
      ghost var i := SlotFor(slots, d.id);
      var isNew := d.id !in documents;
      if !isNew && d.version <= documents[d.id].document.version { return Err(StaleVersion); }
      var valid := ValidateMaps(schema, d);
      if !valid { return Err(SchemaError); }
      var id := nextId;
      if isNew {
        if nextId == 0 || nextId > maximumId { return Err(InternalIdExhausted); }
      } else {
        id := documents[d.id].internalId;
      }
      var prepared := Prepared(map[], map[], map[]);
      if !d.deleted {
        var preparing := Prepare(schema, d);
        if preparing.Err? { return Err(preparing.error); }
        prepared := preparing.value;
        PreparedIsRecord(schema, d);
      } else {
        assert Analyzable(schema, d) by { DeletedIsAnalyzable(schema, d); }
        DeletedHasNothing(schema, d);
      }
      var record := DocumentRecord(id, d, prepared.lengths, prepared.terms);
      var stagedFields, stagedStatistics := Stage(d, id, prepared);
      StoreUpdates(slots, d);
      PutKeepsRecords(schema, slots, Store(slots, d), i, d, documents);
      PutKeepsIds(slots, Store(slots, d), i, d, externalIds);
      StoreKeepsStorable(schema, slots, d);
      Install(d, record, stagedFields, stagedStatistics, isNew);
      r := Ok(());
    }

    /** A delete is a put of a tombstone; the version test comes first, as in the source. */
    method Erase(id: string, version: nat) returns (r: Result<(), IndexError>)
      requires Valid()
      modifies this
      ensures Valid()
      ensures var d := Document(id, map[], map[], version, true);
        match Refusal(schema, old(slots), maximumId, d)
        case Some(e) => r == Err(e) && unchanged(this)
        case None => r == Ok(()) && slots == Store(old(slots), d)
      ensures r.Ok? <==>
        && id != "" && (forall i :: 0 <= i < |old(slots)| && old(slots)[i].id == id ==> old(slots)[i].version < version)
        && (Held(old(slots), id) || |old(slots)| < maximumId)
      ensures slots == After(schema, old(slots), maximumId, Document(id, map[], map[], version, true))
    {
      RecordOfId(schema, slots, documents, id);
      RefusalIs(schema, slots, maximumId, Document(id, map[], map[], version, true));
      hide HoldsRecords, HoldsIds, HoldsPostings, HoldsStatistics, DistinctIds, Find, FieldsAccepted, MetadataAccepted,
           Analyzable;
      if id in documents && version <= documents[id].document.version {
        assert id != "";
        return Err(StaleVersion);
      }
      r := Put(Document(id, map[], map[], version, true));
    }

    /** A term is found exactly when some live document contains it, with the rebuilt postings. */
    method Lookup(f: string, t: string) returns (r: Option<TermEntry>)
      requires Valid()
      ensures r == TermEntryOf(schema, slots, slots, f, t)
    {
      assert PostingsIn(fields, f, t) == Postings(schema, slots, f, t);
      hide Postings;
      if f !in fields || t !in fields[f] { return None; }
      r := Some(fields[f][t]);
    }

    method LiveDocumentIds() returns (ids: seq<nat>)
      requires Valid()
      ensures ids == LiveIds(slots)
    {
      hide HoldsPostings, HoldsStatistics, LiveIds, RecordFor;
      ids := [];
      var id := 1;
      LiveBegins(slots);
      while id in externalIds
        invariant 1 <= id <= |slots| + 1
        invariant ids == LiveIds(slots[..id - 1])
        decreases |slots| + 1 - id
      {
        RecordAt(schema, slots, documents, externalIds, id);
        var record := documents[externalIds[id]];
        LiveStep(slots, id - 1);
        if !record.document.deleted { ids := ids + [id]; }
        id := id + 1;
      }
      assert slots[..id - 1] == slots;
    }

    method Statistics(f: string) returns (count: nat, total: nat)
      requires Valid()
      ensures count == FieldCount(schema, slots, f) && total == FieldTotal(schema, slots, f)
      ensures total < U64_LIMIT
    {
      MatchIsHolds(schema, slots, statistics);
      TotalsFit(schema, slots, f);
      assert CountOf(statistics, f) == FieldCount(schema, slots, f) && TotalOf(statistics, f) == FieldTotal(schema,
                     slots, f);
      if f in statistics { return statistics[f].count, statistics[f].total; }
      return 0, 0;
    }

    /** What the planner and the executor read of this index: its own documents, scored by its own counts. */
    method View() returns (v: SearchView)
      requires Valid()
      ensures v.schema == schema && Represents(v, slots, slots)
    {
      hide Postings, FieldCount, FieldTotal, LiveIds, Represents, RecordFor, Storable, TermEntryOf, HoldsPostings,
           HoldsStatistics;
      var live := LiveDocumentIds();
      var records := map id | id in externalIds :: documents[externalIds[id]];
      v := SearchView(schema, fields, records, live, |live|,
                      map f | f in statistics :: (statistics[f].count, statistics[f].total));
      LookupsRepresent(schema, slots, fields, v);
      StatisticsRepresent(schema, slots, statistics, v);
      ViewRepresents(slots, v);
    }

    /** The lengths the replaced document, if any, contributes to the statistics. */
    ghost function OldLengths(i: nat): map<string, nat>
      reads this
    {
      if i < |slots| then FieldLengths(schema, slots[i]) else map[]
    }

    /** First half of the staging: the replaced document goes out. */
    method StageRemoval(externalId: string, ghost i: nat)
      returns (stagedFields: FieldDictionaries, stagedStatistics: map<string, Accumulator>)
      requires Valid() && i == SlotFor(slots, externalId)
      ensures OldRemoved(schema, slots, i, fields, stagedFields)
      ensures StatisticsMoved(statistics, stagedStatistics, OldLengths(i), map[])
    {
      RecordOfId(schema, slots, documents, externalId);
      assert externalId in documents <==> i < |slots|;
      assert i < |slots| ==> documents[externalId] == RecordFor(schema, slots[i], i + 1);
      if i < |slots| && slots[i].deleted { DeletedHasNothing(schema, slots[i]); }
      HeldIsPositive(schema, slots, statistics);
      HeldIsTidy(schema, slots, fields);
      hide HoldsRecords, HoldsIds, HoldsPostings, HoldsStatistics, DistinctIds, Find, SlotFor, NoZeroCount,
           FieldLengths, IndexedTerms, Usable, Removed, AllTidy, StatisticsMoved;
      NotMoved(statistics);
      stagedFields, stagedStatistics := fields, statistics;
      if externalId in documents && !documents[externalId].document.deleted {
        stagedStatistics := RetireOld(documents[externalId], i);
        stagedFields := RemovePostings(fields, documents[externalId].indexedTerms, documents[externalId].internalId);
      }
    }

    /** The staged dictionaries and statistics: old document out, new document in. */
    method Stage(d: Document, id: nat, prepared: Prepared)
      returns (stagedFields: FieldDictionaries, stagedStatistics: map<string, Accumulator>)
      requires Valid() && id == SlotFor(slots, d.id) + 1
      requires !d.deleted ==>
        prepared == PreparedFields(schema, d, d.fields.Keys) && prepared.lengths == FieldLengths(schema, d)
      ensures HoldsPostings(schema, Store(slots, d), stagedFields)
      ensures HoldsStatistics(schema, Store(slots, d), stagedStatistics)
    {
      hide HoldsRecords, HoldsIds, HoldsPostings, HoldsStatistics, DistinctIds, Find, Store, SlotFor, NoZeroCount,
           Storable, FieldLengths, IndexedTerms, PreparedFields, Usable, OldRemoved, Installed, AllTidy, AllAscend,
           StatisticsMoved;
      if d.deleted { DeletedHasNothing(schema, d); }
      ghost var i := SlotFor(slots, d.id);
      var without, retired := StageRemoval(d.id, i);
      RemovalAscends(schema, slots, i, fields, without);
      MovedIsPositive(statistics, retired, OldLengths(i), map[]);
      stagedFields, stagedStatistics := without, retired;
      if !d.deleted {
        stagedFields := InstallPostings(without, prepared.postings, id);
        stagedStatistics := AddStatistics(retired, prepared.lengths);
        MovedTwice(statistics, retired, stagedStatistics, OldLengths(i), prepared.lengths);
      }
      PutRebuildsPostings(schema, slots, d, fields, without, stagedFields);
      PutRebuildsStatistics(schema, slots, d, statistics, stagedStatistics);
    }

    /** Takes the replaced document out of the statistics. */
    method RetireOld(record: DocumentRecord, ghost i: nat) returns (r: map<string, Accumulator>)
      requires HoldsStatistics(schema, slots, statistics) && i < |slots| && record == RecordFor(schema, slots[i], i + 1)
      ensures StatisticsMoved(statistics, r, FieldLengths(schema, slots[i]), map[])
    {
      MatchIsHolds(schema, slots, statistics);
      hide FieldLengths, FieldCount, FieldTotal;
      forall f | f in record.fieldLengths
        ensures f in statistics && record.fieldLengths[f] <= statistics[f].total
        ensures CountOf(statistics, f) == 1 ==> TotalOf(statistics, f) == record.fieldLengths[f]
      {
        CanRetire(schema, slots, i, f);
      }
      hide HoldsStatistics, StatisticsMatch;
      r := RetireStatistics(statistics, record.fieldLengths);
    }

    /** Publishes the staged state with the record and advances the ID counter for a new document. */
    method Install(d: Document, record: DocumentRecord, stagedFields: FieldDictionaries,
                   stagedStatistics: map<string, Accumulator>, isNew: bool)
      requires Usable(schema) && maximumId < U32_LIMIT && Find(slots, d.id).None? == isNew
      requires |slots| <= maximumId && (isNew ==> |slots| < maximumId)
      requires nextId == if |slots| + 1 == U32_LIMIT then 0 else |slots| + 1
      requires var next := Store(slots, d);
        && DistinctIds(next) && (forall i :: 0 <= i < |next| ==> Storable(schema, next[i]))
        && HoldsRecords(schema, next, documents[d.id := record])
        && HoldsIds(next, externalIds[record.internalId := d.id])
        && HoldsPostings(schema, next, stagedFields)
        && HoldsStatistics(schema, next, stagedStatistics)
      modifies this
      ensures Valid() && slots == Store(old(slots), d)
    {
      hide HoldsRecords, HoldsIds, HoldsPostings, HoldsStatistics, DistinctIds, Find, Usable, Storable;
      externalIds := externalIds[record.internalId := d.id];
      documents := documents[d.id := record];
      fields := stagedFields;
      statistics := stagedStatistics;
      if isNew { nextId := if nextId + 1 == U32_LIMIT then 0 else nextId + 1; }
      slots := Store(slots, d);
    }
  }

  lemma LookupsRepresent(schema: Schema, slots: Slots, fields: FieldDictionaries, v: SearchView)
    requires HoldsPostings(schema, slots, fields) && v.fields == fields
    ensures forall f, t :: v.Lookup(f, t) == TermEntryOf(schema, slots, slots, f, t)
  {
    hide Postings;
    forall f, t ensures v.Lookup(f, t) == TermEntryOf(schema, slots, slots, f, t) {
      assert PostingsIn(fields, f, t) == Postings(schema, slots, f, t);
    }
  }

  lemma StatisticsRepresent(schema: Schema, slots: Slots, statistics: map<string, Accumulator>, v: SearchView)
    requires HoldsStatistics(schema, slots, statistics)
    requires v.statistics == map f | f in statistics :: (statistics[f].count, statistics[f].total)
    ensures forall f :: v.Statistics(f) == (FieldCount(schema, slots, f), FieldTotal(schema, slots, f))
  {
    forall f ensures v.Statistics(f) == (FieldCount(schema, slots, f), FieldTotal(schema, slots, f)) {
      NoFieldNoLengthIf(schema, slots, f);
    }
  }

  lemma NoFieldNoLengthIf(schema: Schema, slots: Slots, f: string)
    ensures FieldCount(schema, slots, f) == 0 ==> FieldTotal(schema, slots, f) == 0
  {
    if FieldCount(schema, slots, f) == 0 { NoFieldNoLength(schema, slots, f); }
  }

  lemma ViewRepresents(slots: Slots, v: SearchView)
    requires Usable(v.schema) && DistinctIds(slots) && |slots| < U32_LIMIT
    requires forall i :: 0 <= i < |slots| ==> Storable(v.schema, slots[i])
    requires forall f, t :: v.Lookup(f, t) == TermEntryOf(v.schema, slots, slots, f, t)
    requires forall id :: id in v.records <==> 1 <= id <= |slots|
    requires forall i :: 0 <= i < |slots| ==> v.records[i + 1] == RecordFor(v.schema, slots[i], i + 1)
    requires v.liveIds == LiveIds(slots) && v.liveCount == |v.liveIds|
    requires forall f :: v.Statistics(f) == (FieldCount(v.schema, slots, f), FieldTotal(v.schema, slots, f))
    ensures Represents(v, slots, slots)
  {
    hide Storable, TermEntryOf, RecordFor, LiveIds, FieldCount, FieldTotal;
  }

  lemma DeletedIsAnalyzable(schema: Schema, d: Document)
    requires Usable(schema) && FieldsAccepted(schema, d) && d.deleted
    ensures Analyzable(schema, d)
  {
  }

  lemma HeldIsPositive(schema: Schema, slots: Slots, statistics: map<string, Accumulator>)
    requires HoldsStatistics(schema, slots, statistics)
    ensures NoZeroCount(statistics)
  {
  }

  lemma MovedIsPositive(a: map<string, Accumulator>, b: map<string, Accumulator>, out: map<string, nat>,
                        added: map<string, nat>)
    requires StatisticsMoved(a, b, out, added)
    ensures NoZeroCount(b)
  {
  }

  lemma HeldIsTidy(schema: Schema, slots: Slots, fields: FieldDictionaries)
    requires HoldsPostings(schema, slots, fields)
    ensures AllTidy(fields)
  {
  }

  lemma StoreKeepsStorable(schema: Schema, slots: Slots, d: Document)
    requires Storable(schema, d) && forall i :: 0 <= i < |slots| ==> Storable(schema, slots[i])
    ensures var next := Store(slots, d); forall i :: 0 <= i < |next| ==> Storable(schema, next[i])
  {
    hide Storable;
  }

  /** The two validation loops: indexed fields, then stored metadata. */
  method ValidateMaps(schema: Schema, d: Document) returns (ok: bool)
    ensures ok == (FieldsAccepted(schema, d) && MetadataAccepted(schema, d))
  {
    var todo := d.fields.Keys;
    while todo != {}
      invariant todo <= d.fields.Keys
      invariant forall f :: f in d.fields && f !in todo ==> ValidValue(schema, f, d.fields[f]) && schema[f].indexed
      decreases |todo|
    {
      var f := Least(todo);
      if !ValidValue(schema, f, d.fields[f]) || !schema[f].indexed { return false; }
      todo := todo - {f};
    }
    todo := d.metadata.Keys;
    while todo != {}
      invariant todo <= d.metadata.Keys
      invariant forall f :: f in d.metadata && f !in todo ==> ValidValue(schema, f, d.metadata[f]) && schema[f].stored
      decreases |todo|
    {
      var f := Least(todo);
      if !ValidValue(schema, f, d.metadata[f]) || !schema[f].stored { return false; }
      todo := todo - {f};
    }
    ok := true;
  }
}
