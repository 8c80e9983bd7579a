/** The prompt store (`PromptStorage`): an ordered collection of prompt
    records and a version counter kept under two keys of the extension's
    local key-value storage. Saving and deleting read the collection, bump
    the counter and write the collection back; listing categories and
    searching only read the collection; exporting reads both keys and writes
    nothing; importing overwrites both keys without reading them. Here each
    call is a pure function of the store.
    The fresh id (`crypto.randomUUID()`) and the current time
    (`new Date().toISOString()`) are parameters. */
module Storage {
  import opened Options
  import opened Sequences
  import opened Text

  /** A stored prompt. `createdAt` is absent on a record rewritten by an
      update, because the update stores the caller's fields and a new
      `updatedAt` only. */
  datatype Prompt = Prompt(
    id: string,
    title: string,
    content: string,
    category: string,
    createdAt: Option<string>,
    updatedAt: string)

  /** What a caller hands to `savePrompt`: an id ("" for a new prompt) and
      the user-editable fields. */
  datatype Draft = Draft(id: string, title: string, content: string, category: string)

  /** The logical store: the collection under the prompts key and the
      counter under the version key. */
  datatype Store = Store(prompts: seq<Prompt>, version: int)

  /** The two storage keys as persisted; each may be absent, as on a fresh install. */
  datatype Persisted = Persisted(prompts: Option<seq<Prompt>>, version: Option<int>)

  /** The export document `{version, prompts, exportedAt}`. */
  datatype Envelope = Envelope(version: int, prompts: seq<Prompt>, exportedAt: string)

  /** No two records share an id. */
  predicate UniqueIds(ps: seq<Prompt>) {
    forall i, j :: 0 <= i < j < |ps| ==> ps[i].id != ps[j].id
  }

  /** Some record carries `id`. */
  predicate HasId(ps: seq<Prompt>, id: string) {
    exists i :: 0 <= i < |ps| && ps[i].id == id
  }

  /** Position `i` holds the first record carrying `id`. */
  predicate IsFirstWithId(ps: seq<Prompt>, i: int, id: string) {
    0 <= i < |ps| && ps[i].id == id && forall j :: 0 <= j < i ==> ps[j].id != id
  }

  // ---------------------------------------------------------------------
  // Reading and bumping the raw keys

  /** `getPrompts`: the stored collection, or no prompts when the key is missing. */
  function GetPrompts(raw: Persisted): (ps: seq<Prompt>)
    ensures raw.prompts.None? ==> ps == []
    ensures raw.prompts.Some? ==> ps == raw.prompts.value
  {
    raw.prompts.GetOr([])
  }

  /** `getCurrentVersion`: the stored counter, or 0 when the key is missing. */
  function GetCurrentVersion(raw: Persisted): (v: int)
    ensures raw.version.None? ==> v == 0
    ensures raw.version.Some? ==> v == raw.version.value
  {
    raw.version.GetOr(0)
  }

  /** The logical store the raw keys describe. */
  function Load(raw: Persisted): Store {
    Store(GetPrompts(raw), GetCurrentVersion(raw))
  }

  /** `incrementVersion`: the counter goes up by one, the collection is untouched. */
  function IncrementVersion(s: Store): (r: Store)
    ensures r.version == s.version + 1
    ensures r.prompts == s.prompts
  {
    s.(version := s.version + 1)
  }

  /** On a fresh install the store is empty at version 0, so the first
      mutation leaves the counter at 1. */
  lemma FreshInstall(d: Draft, freshId: string, now: string)
    ensures Load(Persisted(None, None)) == Store([], 0)
    ensures SavePrompt(Load(Persisted(None, None)), d, freshId, now).version == 1
  {
  }

  // ---------------------------------------------------------------------
  // savePrompt

  /** `prompts.findIndex(p => p.id === id)`, with `None` for -1. */
  function FindIndex(ps: seq<Prompt>, id: string): (r: Option<nat>)
    ensures r.Some? ==> IsFirstWithId(ps, r.value, id)
    ensures r.None? <==> !HasId(ps, id)
  {
    if ps == [] then None
    else if ps[0].id == id then Some(0)
    else
      match FindIndex(ps[1..], id)
      case None =>
        assert forall i :: 1 <= i < |ps| ==> ps[i] == ps[1..][i - 1];
        None
      case Some(k) =>
        assert ps[k + 1] == ps[1..][k];
        Some(k + 1)
  }

  /** The record a create appends. */
  function Created(d: Draft, freshId: string, now: string): Prompt {
    Prompt(freshId, d.title, d.content, d.category, Some(now), now)
  }

  /** The record an update writes: the caller's fields and the new `updatedAt`. */
  function Updated(d: Draft, now: string): Prompt {
    Prompt(d.id, d.title, d.content, d.category, None, now)
  }

  /** `savePrompt`: with an empty id, append a new record under `freshId`;
      otherwise replace the first record carrying the id, if any. The
      counter is bumped either way. */
  function SavePrompt(s: Store, d: Draft, freshId: string, now: string): (r: Store)
    ensures r.version == s.version + 1
    // create: exactly one record appended, everything before it unchanged
    ensures d.id == "" ==>
      && |r.prompts| == |s.prompts| + 1
      && r.prompts[..|s.prompts|] == s.prompts
      && var p := r.prompts[|s.prompts|];
         p.id == freshId && p.title == d.title && p.content == d.content
         && p.category == d.category && p.createdAt == Some(p.updatedAt) && p.updatedAt == now
    // update: same length, only the first record with the id is replaced
    ensures d.id != "" ==> |r.prompts| == |s.prompts|
    ensures d.id != "" ==> forall i :: 0 <= i < |s.prompts| ==>
      r.prompts[i] == if IsFirstWithId(s.prompts, i, d.id) then Updated(d, now) else s.prompts[i]
    ensures d.id != "" && !HasId(s.prompts, d.id) ==> r.prompts == s.prompts
  {
    var prompts :=
      if d.id != "" then
        match FindIndex(s.prompts, d.id)
        case Some(k) => s.prompts[k := Updated(d, now)]
        case None => s.prompts
      else
        s.prompts + [Created(d, freshId, now)];
    IncrementVersion(Store(prompts, s.version))
  }

  /** Saving keeps ids unique, provided a create is given an id no record has. */
  lemma SaveKeepsIdsUnique(s: Store, d: Draft, freshId: string, now: string)
    requires UniqueIds(s.prompts)
    requires d.id == "" ==> !HasId(s.prompts, freshId)
    ensures UniqueIds(SavePrompt(s, d, freshId, now).prompts)
  {
    var r := SavePrompt(s, d, freshId, now).prompts;
    if d.id == "" {
      assert forall i :: 0 <= i < |s.prompts| ==> r[i] == s.prompts[i];
    } else {
      assert forall i :: 0 <= i < |s.prompts| ==> r[i].id == s.prompts[i].id;
    }
  }

  // ---------------------------------------------------------------------
  // deletePrompt

  /** The filter condition of `deletePrompt`. */
  function NotWithId(id: string): Prompt -> bool {
    (p: Prompt) => p.id != id
  }

  /** `deletePrompt`: keep, in order, every record whose id differs from
      `id`; bump the counter even when nothing was removed. */
  function DeletePrompt(s: Store, id: string): (r: Store)
    ensures r.version == s.version + 1
    ensures forall i :: 0 <= i < |r.prompts| ==> r.prompts[i].id != id
    ensures IsSubsequence(r.prompts, s.prompts)
    ensures forall p: Prompt :: p.id != id ==> multiset(r.prompts)[p] == multiset(s.prompts)[p]
    ensures !HasId(s.prompts, id) ==> r.prompts == s.prompts
  {
    if !HasId(s.prompts, id) then
      FilterKeepsAll(s.prompts, NotWithId(id));
      IncrementVersion(Store(Filter(s.prompts, NotWithId(id)), s.version))
    else
      IncrementVersion(Store(Filter(s.prompts, NotWithId(id)), s.version))
  }

  /** Deleting leaves the collection as it was exactly when no record carries the id. */
  lemma DeleteUnchangedIffAbsent(s: Store, id: string)
    ensures DeletePrompt(s, id).prompts == s.prompts <==> !HasId(s.prompts, id)
  {
    if HasId(s.prompts, id) {
      var k :| 0 <= k < |s.prompts| && s.prompts[k].id == id;
      FilterDropsRejected(s.prompts, NotWithId(id), k);
    }
  }

  /** A subsequence of a collection with unique ids has unique ids. */
  lemma {:induction false} SubsequenceKeepsIdsUnique(a: seq<Prompt>, b: seq<Prompt>)
    requires IsSubsequence(a, b) && UniqueIds(b)
    ensures UniqueIds(a)
    decreases |b|
  {
    if a != [] {
      if a[0] == b[0] && IsSubsequence(a[1..], b[1..]) {
        SubsequenceKeepsIdsUnique(a[1..], b[1..]);
        SubsequenceMembers(a[1..], b[1..]);
        forall j | 1 <= j < |a|
          ensures a[0].id != a[j].id
        {
          assert a[j] == a[1..][j - 1] && a[j] in a[1..];
          assert a[j] in b[1..];
          var m :| 0 <= m < |b[1..]| && b[1..][m] == a[j];
          assert b[m + 1] == a[j];
        }
      } else {
        SubsequenceKeepsIdsUnique(a, b[1..]);
      }
    }
  }

  /** Deleting keeps ids unique. */
  lemma DeleteKeepsIdsUnique(s: Store, id: string)
    requires UniqueIds(s.prompts)
    ensures UniqueIds(DeletePrompt(s, id).prompts)
  {
    SubsequenceKeepsIdsUnique(DeletePrompt(s, id).prompts, s.prompts);
  }

  // ---------------------------------------------------------------------
  // getCategories

  /** `prompts.map(p => p.category)`. */
  function CategoryColumn(ps: seq<Prompt>): (cs: seq<string>)
    ensures |cs| == |ps|
    ensures forall i :: 0 <= i < |ps| ==> cs[i] == ps[i].category
  {
    seq(|ps|, i requires 0 <= i < |ps| => ps[i].category)
  }

  /** JavaScript truthiness of a string: `filter(Boolean)` keeps non-empty ones. */
  function NonEmpty(): string -> bool {
    (c: string) => c != ""
  }

  /** `getCategories`: the distinct non-empty categories in use, each listed
      once, in the order of the first record that carries it. */
  function GetCategories(s: Store): (r: seq<string>)
    ensures Distinct(r)
    ensures forall c :: c in r <==> c != "" && c in CategoryColumn(s.prompts)
    ensures forall i, j :: 0 <= i < j < |r| ==>
      FirstIndex(CategoryColumn(s.prompts), r[i]) < FirstIndex(CategoryColumn(s.prompts), r[j])
  {
    var column := CategoryColumn(s.prompts);
    var named := Filter(column, NonEmpty());
    FilterMembers(column, NonEmpty());
    DedupFirstOccurrenceOrder(named);
    FilterKeepsFirstOccurrenceOrderAll(column, NonEmpty());
    Dedup(named)
  }

  // ---------------------------------------------------------------------
  // searchPrompts

  /** The search condition, stated with the substring relation: the query is
      empty or occurs, ignoring case, in the title or in the content; and the
      category argument is empty or equals the record's category. */
  ghost predicate Selected(p: Prompt, query: string, category: string) {
    && (query == "" || IsSubstring(Lower(query), Lower(p.title)) || IsSubstring(Lower(query), Lower(p.content)))
    && (category == "" || p.category == category)
  }

  /** The filter condition of `searchPrompts`. */
  function SearchHit(query: string, category: string): Prompt -> bool {
    (p: Prompt) =>
      && (query == "" || Contains(Lower(p.title), Lower(query)) || Contains(Lower(p.content), Lower(query)))
      && (category == "" || p.category == category)
  }

  /** `searchPrompts`: the records meeting the search condition, in store order. */
  function SearchPrompts(s: Store, query: string, category: string): (r: seq<Prompt>)
    ensures IsSubsequence(r, s.prompts)
    ensures forall i :: 0 <= i < |r| ==> Selected(r[i], query, category)
    ensures forall p :: Selected(p, query, category) ==> multiset(r)[p] == multiset(s.prompts)[p]
  {
    Filter(s.prompts, SearchHit(query, category))
  }

  /** A record is found exactly when it is stored and meets the search condition. */
  lemma SearchMembership(s: Store, query: string, category: string, p: Prompt)
    ensures p in SearchPrompts(s, query, category) <==> p in s.prompts && Selected(p, query, category)
  {
    FilterMembers(s.prompts, SearchHit(query, category));
  }

  /** The search finds something exactly when some stored record meets the condition. */
  lemma SearchEmptyIffNoMatch(s: Store, query: string, category: string)
    ensures SearchPrompts(s, query, category) == [] <==>
      forall k :: 0 <= k < |s.prompts| ==> !Selected(s.prompts[k], query, category)
  {
    var r := SearchPrompts(s, query, category);
    if r != [] {
      SubsequenceMembers(r, s.prompts);
      assert r[0] in s.prompts;
    }
    forall k | 0 <= k < |s.prompts| && Selected(s.prompts[k], query, category)
      ensures r != []
    {
      assert multiset(r)[s.prompts[k]] == multiset(s.prompts)[s.prompts[k]] > 0;
    }
  }

  /** The contract of `SearchPrompts` pins its result down: any
      order-preserving selection of exactly the matching records is it. */
  lemma SearchDeterminedByContract(s: Store, query: string, category: string, r: seq<Prompt>)
    requires IsSubsequence(r, s.prompts)
    requires forall i :: 0 <= i < |r| ==> Selected(r[i], query, category)
    requires forall p :: Selected(p, query, category) ==> multiset(r)[p] == multiset(s.prompts)[p]
    ensures r == SearchPrompts(s, query, category)
  {
    FilterUnique(s.prompts, SearchHit(query, category), r);
  }

  /** With neither a query nor a category the search returns the whole
      collection in store order. */
  lemma SearchUnconstrained(s: Store)
    ensures SearchPrompts(s, "", "") == s.prompts
  {
    FilterKeepsAll(s.prompts, SearchHit("", ""));
  }

  /** The case of the query does not matter. */
  lemma SearchIgnoresQueryCase(s: Store, query: string, category: string)
    ensures SearchPrompts(s, query, category) == SearchPrompts(s, Lower(query), category)
  {
    LowerIdempotent(query);
    assert query == "" <==> Lower(query) == "";
    forall p
      ensures Selected(p, query, category) == Selected(p, Lower(query), category)
    {
    }
    SearchDeterminedByContract(s, Lower(query), category, SearchPrompts(s, query, category));
  }

  // ---------------------------------------------------------------------
  // exportPrompts / importPrompts

  /** `exportPrompts`: the current collection and counter, stamped with `now`. */
  function ExportPrompts(s: Store, now: string): (e: Envelope)
    ensures e.prompts == s.prompts && e.version == s.version && e.exportedAt == now
  {
    Envelope(s.version, s.prompts, now)
  }

  /** `importPrompts`: `parsed` is the outcome of parsing the text. `None`
      stands for a parse that throws and for a parse that yields `null`,
      whose property read then throws inside the same `try`. On success
      both keys are replaced wholesale by the envelope's fields and the
      result is true; on failure the store is untouched and the result is
      false. */
  function ImportPrompts(s: Store, parsed: Option<Envelope>): (r: (Store, bool))
    ensures r.1 <==> parsed.Some?
    ensures !r.1 ==> r.0 == s
    ensures r.1 ==> r.0.prompts == parsed.value.prompts && r.0.version == parsed.value.version
  {
    match parsed
    case None => (s, false)
    case Some(e) => (Store(e.prompts, e.version), true)
  }

  /** Importing an export restores the exported collection and counter,
      whatever the store held before. */
  lemma ImportExportRoundTrip(s: Store, before: Store, now: string)
    ensures ImportPrompts(before, Some(ExportPrompts(s, now))) == (s, true)
  {
  }

  // ---------------------------------------------------------------------
  // The version counter across many mutations

  /** One mutating storage call. */
  datatype Mutation =
    | Save(draft: Draft, freshId: string, now: string)
    | Delete(id: string)

  function Apply(s: Store, m: Mutation): Store {
    match m
    case Save(d, freshId, now) => SavePrompt(s, d, freshId, now)
    case Delete(id) => DeletePrompt(s, id)
  }

  /** The store after the mutations `ms`, in order. */
  function Replay(s: Store, ms: seq<Mutation>): Store
    decreases |ms|
  {
    if ms == [] then s else Replay(Apply(s, ms[0]), ms[1..])
  }

  /** The counter counts mutations: after `ms` it has grown by exactly `|ms|`,
      whether or not any of them changed a record. */
  lemma {:induction false} VersionCountsMutations(s: Store, ms: seq<Mutation>)
    ensures Replay(s, ms).version == s.version + |ms|
    decreases |ms|
  {
    if ms != [] {
      VersionCountsMutations(Apply(s, ms[0]), ms[1..]);
    }
  }
}
