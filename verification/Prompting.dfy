/** The memory shown to the model: four recall tiers, merged and cut. */
module Prompting {
  import opened Prelude
  import opened Text
  import opened Memory

  datatype Hints = Hints(casePath: Option<string>, bus: Option<int>, connectionType: Option<string>)

  predicate CaseKnown(h: Hints) { h.casePath.Some? && h.casePath.value != "" }

  // ---- merging without duplicates ----

  ghost function Ids(s: seq<Record>): set<string> { set r | r in s :: r.id }

  /** Every record whose id no earlier one carries. */
  ghost function Dedupe(s: seq<Record>): seq<Record> {
    if s == [] then []
    else
      var k := |s| - 1;
      if s[k].id in Ids(s[..k]) then Dedupe(s[..k]) else Dedupe(s[..k]) + [s[k]]
  }

  method DedupeRecords(s: seq<Record>) returns (selected: seq<Record>)
    ensures selected == Dedupe(s)
  {
    selected := [];
    var seen := {};
    for k := 0 to |s|
      invariant selected == Dedupe(s[..k])
      invariant seen == Ids(s[..k])
    {
      DedupeNext(s, k);
      if s[k].id in seen {
        continue;
      }
      seen := seen + {s[k].id};
      selected := selected + [s[k]];
    }
    assert s[..|s|] == s;
  }

  lemma DedupeNext(s: seq<Record>, k: nat)
    requires k < |s|
    ensures Ids(s[..k + 1]) == Ids(s[..k]) + {s[k].id}
    ensures Dedupe(s[..k + 1]) == if s[k].id in Ids(s[..k]) then Dedupe(s[..k]) else Dedupe(s[..k]) + [s[k]]
  {
    TakeNext(s, k);
    assert s[..k + 1][..k] == s[..k];
  }

  /** No two entries share an id. */
  ghost predicate UniqueIds(s: seq<Record>) { forall i, j | 0 <= i < j < |s| :: s[i].id != s[j].id }

  ghost predicate FirstWithId(s: seq<Record>, a: nat) { a < |s| && forall b | 0 <= b < a :: s[b].id != s[a].id }

  /** The merged list has every id once. */
  lemma {:induction false} DedupeMeaning(s: seq<Record>)
    ensures UniqueIds(Dedupe(s)) && Ids(Dedupe(s)) == Ids(s) && |Dedupe(s)| == |Ids(s)|
  {
    if s != [] {
      var k := |s| - 1;
      var front := s[..k];
      DedupeMeaning(front);
      TakeNext(s, k);
      DedupeNext(s, k);
      if s[k].id !in Ids(front) {
        UniqueSnoc(Dedupe(front), s[k]);
      }
    }
  }

  /** Each id is represented by its first occurrence. */
  lemma {:induction false} DedupeKeepsFirst(s: seq<Record>, r: Record)
    requires r in Dedupe(s)
    ensures exists a: nat :: FirstWithId(s, a) && s[a] == r
  {
    var k := |s| - 1;
    DedupeNext(s, k);
    FirstsStay(s, k);
    TakeNext(s, k);
    if r in Dedupe(s[..k]) {
      DedupeKeepsFirst(s[..k], r);
      var a: nat :| FirstWithId(s[..k], a) && s[..k][a] == r;
      assert FirstWithId(s, a);
    } else {
      assert FirstWithId(s, k);
    }
  }

  lemma FirstsStay(s: seq<Record>, k: nat)
    requires k < |s|
    ensures forall a: nat :: FirstWithId(s[..k], a) ==> FirstWithId(s, a)
    ensures s[k].id !in Ids(s[..k]) ==> FirstWithId(s, k)
  {
    assert forall b | 0 <= b < k :: s[b] in s[..k];
  }

  lemma UniqueSnoc(s: seq<Record>, r: Record)
    requires UniqueIds(s) && r.id !in Ids(s)
    ensures UniqueIds(s + [r]) && Ids(s + [r]) == Ids(s) + {r.id}
  {
  }

  /** Merging more tiers only adds at the end, so first occurrences keep their order. */
  lemma {:induction false} DedupeGrows(a: seq<Record>, b: seq<Record>)
    ensures Dedupe(a) <= Dedupe(a + b)
  {
    if b == [] {
      assert a + b == a;
    } else {
      DedupeGrows(a, b[..|b| - 1]);
      assert (a + b)[..|a + b| - 1] == a + b[..|b| - 1];
    }
  }

  lemma {:induction false} DedupeUnique(s: seq<Record>)
    requires UniqueIds(s)
    ensures Dedupe(s) == s && |Ids(s)| == |s|
  {
    DedupeMeaning(s);
    if s != [] {
      var k := |s| - 1;
      TakeNext(s, k);
      assert forall r | r in s[..k] :: exists i :: 0 <= i < k && s[i] == r;
      DedupeUnique(s[..k]);
    }
  }

  lemma IdsSubset(a: seq<Record>, b: seq<Record>)
    requires forall r | r in a :: r in b
    ensures Ids(a) <= Ids(b) && |Ids(a)| <= |Ids(b)|
  {
    SubsetSize(Ids(a), Ids(b));
  }

  // ---- recalls of a log with unique ids ----

  lemma RecallUnique(records: seq<Record>, matches: Record -> bool, limit: int)
    requires UniqueIds(records)
    ensures UniqueIds(Recall(records, matches, limit))
    ensures forall r | r in Recall(records, matches, limit) :: r in records && matches(r)
  {
    var all := Filter(records, matches);
    assert Distinct(records);
    FilterDistinct(records, matches);
    SortDistinct(all, Newest);
    var r := Recall(records, matches, limit);
    forall i, j | 0 <= i < j < |r| ensures r[i].id != r[j].id {
      assert r[i] != r[j] && r[i] in records && r[j] in records;
      SameIdSameRecord(records, r[i], r[j]);
    }
  }

  lemma SameIdSameRecord(records: seq<Record>, x: Record, y: Record)
    requires UniqueIds(records) && x in records && y in records && x != y
    ensures x.id != y.id
  {
  }

  // ---- the tiers ----

  // The tiers' recalls over the records of a readable log, each cut to the limit.
  function BusTier(lower: string -> string, h: Hints, records: seq<Record>, limit: int): seq<Record> {
    if CaseKnown(h) && h.bus.Some? then Recall(records, OnBus(lower, Strip(h.casePath.value), h.bus.value), limit) else []
  }

  function CaseTier(lower: string -> string, h: Hints, records: seq<Record>, limit: int): seq<Record>
    requires CaseKnown(h)
  {
    Recall(records, OnCase(lower, Strip(h.casePath.value)), limit)
  }

  function CapacityTier(lower: string -> string, h: Hints, records: seq<Record>, limit: int): seq<Record> {
    Recall(records, CapacityRun(lower, h.casePath, h.bus, h.connectionType), limit)
  }

  function RecentTier(records: seq<Record>, limit: int): seq<Record> { Recall(records, Anything(), limit) }

  /** Each later tier is asked only while the list is shorter than the limit, repeats included. */
  function UpToCase<T>(limit: int, onBus: seq<T>, onCase: Option<seq<T>>): seq<T> {
    if |onBus| < limit && onCase.Some? then onBus + onCase.value else onBus
  }

  function UpToCapacity<T>(limit: int, onBus: seq<T>, onCase: Option<seq<T>>, capacity: Option<seq<T>>): seq<T> {
    UpToCase(limit, UpToCase(limit, onBus, onCase), capacity)
  }

  function Cascade<T>(limit: int, onBus: seq<T>, onCase: Option<seq<T>>, capacity: Option<seq<T>>, recent: seq<T>): seq<T> {
    UpToCase(limit, UpToCapacity(limit, onBus, onCase, capacity), Some(recent))
  }

  lemma CascadeParts<T>(limit: int, onBus: seq<T>, onCase: Option<seq<T>>, capacity: Option<seq<T>>, recent: seq<T>)
    ensures onBus <= Cascade(limit, onBus, onCase, capacity, recent)
    ensures onCase.Some? && |onBus| < limit ==> forall x | x in onCase.value :: x in Cascade(limit, onBus, onCase, capacity, recent)
    ensures |UpToCapacity(limit, onBus, onCase, capacity)| < limit ==> forall x | x in recent :: x in Cascade(limit, onBus, onCase, capacity, recent)
  {
  }

  lemma CascadePrefixes<T>(limit: int, onBus: seq<T>, onCase: Option<seq<T>>, capacity: Option<seq<T>>, recent: seq<T>)
    ensures onBus <= Cascade(limit, onBus, onCase, capacity, recent)
    ensures UpToCase(limit, onBus, onCase) <= Cascade(limit, onBus, onCase, capacity, recent)
    ensures UpToCapacity(limit, onBus, onCase, capacity) <= Cascade(limit, onBus, onCase, capacity, recent)
  {
  }

  lemma CascadeSources<T>(limit: int, onBus: seq<T>, onCase: Option<seq<T>>, capacity: Option<seq<T>>, recent: seq<T>, all: seq<T>)
    requires forall x | x in onBus :: x in all
    requires onCase.Some? ==> forall x | x in onCase.value :: x in all
    requires capacity.Some? ==> forall x | x in capacity.value :: x in all
    requires forall x | x in recent :: x in all
    ensures forall x | x in Cascade(limit, onBus, onCase, capacity, recent) :: x in all
  {
  }

  function KnownCaseTier(lower: string -> string, h: Hints, records: seq<Record>, limit: int): Option<seq<Record>> {
    if CaseKnown(h) then Some(CaseTier(lower, h, records, limit)) else None
  }

  function BeforeCapacity(lower: string -> string, h: Hints, records: seq<Record>, limit: int): seq<Record> {
    UpToCase(limit, BusTier(lower, h, records, limit), KnownCaseTier(lower, h, records, limit))
  }

  function HistoryTier(lower: string -> string, h: Hints, capacityHistory: bool, records: seq<Record>, limit: int): Option<seq<Record>> {
    if capacityHistory then Some(CapacityTier(lower, h, records, limit)) else None
  }

  function BeforeRecent(lower: string -> string, h: Hints, capacityHistory: bool, records: seq<Record>, limit: int): seq<Record> {
    UpToCapacity(limit, BusTier(lower, h, records, limit), KnownCaseTier(lower, h, records, limit),
      HistoryTier(lower, h, capacityHistory, records, limit))
  }

  function Tiers(lower: string -> string, h: Hints, capacityHistory: bool, records: seq<Record>, limit: int): seq<Record> {
    Cascade(limit, BusTier(lower, h, records, limit), KnownCaseTier(lower, h, records, limit),
      HistoryTier(lower, h, capacityHistory, records, limit), RecentTier(records, limit))
  }

  ghost function Selection(lower: string -> string, h: Hints, capacityHistory: bool, records: seq<Record>, limit: int): seq<Record> {
    Take(Dedupe(Tiers(lower, h, capacityHistory, records, limit)), limit)
  }

  const LIMIT_ERROR := BadArgument("limit")

  predicate Short(found: Result<seq<Record>, Error>, limit: int) { found.Ok? && |found.value| < limit }

  // The list with the answer appended; the error of a failed recall ends the selection.
  function Extended(found: Result<seq<Record>, Error>, answer: Result<seq<Record>, Error>): Result<seq<Record>, Error>
    requires found.Ok?
  {
    if answer.Ok? then Ok(found.value + answer.value) else answer
  }

  // One tier: skipped when the list is long enough already or the tier does not apply.
  function Then(found: Result<seq<Record>, Error>, applies: bool, answer: Result<seq<Record>, Error>, limit: int): Result<seq<Record>, Error> {
    if applies && Short(found, limit) then Extended(found, answer) else found
  }

  function BlankCase(h: Hints): Option<string> { if IsBlankOption(h.casePath) then Some("case_path") else None }

  function AfterBus(lower: string -> string, log: seq<Line>, h: Hints, limit: int): Result<seq<Record>, Error> {
    if CaseKnown(h) && h.bus.Some? then Answer(BlankCase(h), log, OnBus(lower, Strip(h.casePath.value), h.bus.value), limit) else Ok([])
  }

  function AfterCase(lower: string -> string, log: seq<Line>, h: Hints, limit: int): Result<seq<Record>, Error> {
    if CaseKnown(h)
    then Then(AfterBus(lower, log, h, limit), true, Answer(BlankCase(h), log, OnCase(lower, Strip(h.casePath.value)), limit), limit)
    else AfterBus(lower, log, h, limit)
  }

  function BlankFilter(h: Hints): Option<string> {
    if IsBlankOption(h.casePath) then Some("case_path") else if IsBlankOption(h.connectionType) then Some("connection_type") else None
  }

  function AfterCapacity(lower: string -> string, log: seq<Line>, h: Hints, capacityHistory: bool, limit: int): Result<seq<Record>, Error> {
    Then(AfterCase(lower, log, h, limit), capacityHistory,
      Answer(BlankFilter(h), log, CapacityRun(lower, h.casePath, h.bus, h.connectionType), limit), limit)
  }

  /** The concatenated tiers, or the first error a recall raises. */
  function Gathered(lower: string -> string, log: seq<Line>, h: Hints, capacityHistory: bool, limit: int): Result<seq<Record>, Error> {
    Then(AfterCapacity(lower, log, h, capacityHistory, limit), true, Answer(None, log, Anything(), limit), limit)
  }

  /** The records for the prompt, none without a store. */
  method SelectRelevantMemory(store: StudyMemoryStore?, h: Hints, capacityHistory: bool, limit: int) returns (r: Result<seq<Record>, Error>)
    ensures store == null ==> r == Ok([])
    ensures store != null && limit <= 0 ==> r == Err(LIMIT_ERROR)
    ensures store != null && limit > 0 ==>
      var gathered := Gathered(store.lower, store.log, h, capacityHistory, limit);
      r == if gathered.Err? then gathered else Ok(Take(Dedupe(gathered.value), limit))
  {
    if store == null {
      return Ok([]);
    }
    if limit <= 0 {
      return Err(LIMIT_ERROR);
    }
    var found: Result<seq<Record>, Error> := Ok([]);
    if CaseKnown(h) && h.bus.Some? {
      found := store.RecallBus(h.casePath.value, h.bus.value, limit);
    }
    assert found == AfterBus(store.lower, store.log, h, limit);
    if CaseKnown(h) && Short(found, limit) {
      var answer := store.RecallCase(h.casePath.value, limit);
      found := Extended(found, answer);
    }
    assert found == AfterCase(store.lower, store.log, h, limit);
    if capacityHistory && Short(found, limit) {
      var answer := store.RecallMaxCapacity(h.casePath, h.bus, h.connectionType, limit);
      found := Extended(found, answer);
    }
    assert found == AfterCapacity(store.lower, store.log, h, capacityHistory, limit);
    if Short(found, limit) {
      var answer := store.Recent(limit);
      found := Extended(found, answer);
    }
    assert found == Gathered(store.lower, store.log, h, capacityHistory, limit);
    if found.Err? {
      return found;
    }
    var records := DedupeRecords(found.value);
    r := Ok(Take(records, limit));
  }

  /** The hints pass the argument checks of every recall that is asked. */
  predicate HintsPass(lower: string -> string, h: Hints, capacityHistory: bool, records: seq<Record>, limit: int) {
    && (CaseKnown(h) ==> Strip(h.casePath.value) != "")
    && (capacityHistory && |BeforeCapacity(lower, h, records, limit)| < limit ==> BlankFilter(h).None?)
  }

  lemma AfterCaseMeaning(lower: string -> string, log: seq<Line>, h: Hints, limit: int)
    requires Loaded(log).Ok? && limit > 0
    ensures var found := AfterCase(lower, log, h, limit);
      && (found.Ok? <==> (CaseKnown(h) ==> Strip(h.casePath.value) != ""))
      && (found.Ok? ==> found.value == BeforeCapacity(lower, h, Loaded(log).value, limit))
  {
    var found := AfterBus(lower, log, h, limit);
    assert found.Ok? ==> found.value == BusTier(lower, h, Loaded(log).value, limit);
  }

  lemma AfterCapacityMeaning(lower: string -> string, log: seq<Line>, h: Hints, capacityHistory: bool, limit: int)
    requires Loaded(log).Ok? && limit > 0
    ensures var found, records := AfterCapacity(lower, log, h, capacityHistory, limit), Loaded(log).value;
      && (found.Ok? <==> true == HintsPass(lower, h, capacityHistory, records, limit))
      && (found.Ok? ==> found.value == BeforeRecent(lower, h, capacityHistory, records, limit))
  {
    AfterCaseMeaning(lower, log, h, limit);
  }

  /** Over a readable log a selection succeeds exactly when the hints pass, and then merges the four tiers. */
  lemma GatheredMeaning(lower: string -> string, log: seq<Line>, h: Hints, capacityHistory: bool, limit: int)
    requires Loaded(log).Ok? && limit > 0
    ensures var gathered, records := Gathered(lower, log, h, capacityHistory, limit), Loaded(log).value;
      && (gathered.Ok? <==> HintsPass(lower, h, capacityHistory, records, limit))
      && (gathered.Ok? ==> gathered.value == Tiers(lower, h, capacityHistory, records, limit))
  {
    AfterCapacityMeaning(lower, log, h, capacityHistory, limit);
  }

  /** What each tier holds: records on the bus and the case hinted at, on that case, capacity runs with the case, bus and type
      hinted at, and any records. While it is short of the limit a tier holds all of them. */
  lemma BusTierMeaning(lower: string -> string, h: Hints, records: seq<Record>, limit: int, r: Record)
    requires h.casePath.Some? && h.casePath.value != "" && h.bus.Some?
    ensures var tier := BusTier(lower, h, records, limit);
      var fits := r in records && lower(Strip(r.casePath)) == lower(Strip(h.casePath.value)) && r.bus == h.bus;
      (r in tier ==> fits) && (fits && |tier| < limit ==> r in tier)
  {
    StripIdempotent(h.casePath.value);
    RecallMembers(records, OnBus(lower, Strip(h.casePath.value), h.bus.value), limit, r);
  }

  lemma CaseTierMeaning(lower: string -> string, h: Hints, records: seq<Record>, limit: int, r: Record)
    requires h.casePath.Some? && h.casePath.value != ""
    ensures var tier := CaseTier(lower, h, records, limit); var fits := r in records && lower(Strip(r.casePath)) == lower(Strip(h.casePath.value));
      (r in tier ==> fits) && (fits && |tier| < limit ==> r in tier)
  {
    StripIdempotent(h.casePath.value);
    RecallMembers(records, OnCase(lower, Strip(h.casePath.value)), limit, r);
  }

  lemma CapacityTierMeaning(lower: string -> string, h: Hints, records: seq<Record>, limit: int, r: Record)
    ensures var tier := CapacityTier(lower, h, records, limit);
      var fits := r in records && r.tool == CAPACITY_TOOL
        && (h.casePath.Some? ==> lower(Strip(r.casePath)) == lower(Strip(h.casePath.value)))
        && (h.bus.Some? ==> r.bus == h.bus)
        && (h.connectionType.Some? ==> r.connectionType == Some(lower(Strip(h.connectionType.value))));
      (r in tier ==> fits) && (fits && |tier| < limit ==> r in tier)
  {
    RecallMembers(records, CapacityRun(lower, h.casePath, h.bus, h.connectionType), limit, r);
  }

  lemma RecentTierMeaning(records: seq<Record>, limit: int, r: Record)
    ensures var tier := RecentTier(records, limit); (r in tier ==> r in records) && (r in records && |tier| < limit ==> r in tier)
  {
    RecallMembers(records, Anything(), limit, r);
  }

  // ---- what the selection guarantees, for a log with unique ids ----

  lemma {:induction false} DedupeCovers(s: seq<Record>, part: seq<Record>)
    requires UniqueIds(part) && forall r | r in part :: r in s
    ensures |Dedupe(s)| >= |part|
  {
    DedupeMeaning(s);
    DedupeUnique(part);
    IdsSubset(part, s);
  }

  /** Each tier holds records of the log, each once. */
  lemma TiersUnique(lower: string -> string, h: Hints, records: seq<Record>, limit: int)
    requires UniqueIds(records)
    ensures UniqueIds(BusTier(lower, h, records, limit)) && FromLog(BusTier(lower, h, records, limit), records)
    ensures CaseKnown(h) ==> UniqueIds(CaseTier(lower, h, records, limit)) && FromLog(CaseTier(lower, h, records, limit), records)
    ensures FromLog(CapacityTier(lower, h, records, limit), records)
    ensures UniqueIds(RecentTier(records, limit)) && FromLog(RecentTier(records, limit), records)
  {
    if CaseKnown(h) {
      RecallUnique(records, OnCase(lower, Strip(h.casePath.value)), limit);
      if h.bus.Some? {
        RecallUnique(records, OnBus(lower, Strip(h.casePath.value), h.bus.value), limit);
      }
    }
    RecallUnique(records, CapacityRun(lower, h.casePath, h.bus, h.connectionType), limit);
    RecallUnique(records, Anything(), limit);
  }

  ghost predicate FromLog(s: seq<Record>, records: seq<Record>) { forall r | r in s :: r in records }

  lemma TiersFromLog(lower: string -> string, h: Hints, capacityHistory: bool, records: seq<Record>, limit: int)
    requires UniqueIds(records)
    ensures FromLog(Tiers(lower, h, capacityHistory, records, limit), records)
  {
    TiersUnique(lower, h, records, limit);
    CascadeSources(limit, BusTier(lower, h, records, limit), KnownCaseTier(lower, h, records, limit),
      HistoryTier(lower, h, capacityHistory, records, limit), RecentTier(records, limit), records);
  }

  lemma TiersParts(lower: string -> string, h: Hints, capacityHistory: bool, records: seq<Record>, limit: int)
    ensures BusTier(lower, h, records, limit) <= Tiers(lower, h, capacityHistory, records, limit)
    ensures CaseKnown(h) && |BusTier(lower, h, records, limit)| < limit ==>
      FromLog(CaseTier(lower, h, records, limit), Tiers(lower, h, capacityHistory, records, limit))
    ensures |BeforeRecent(lower, h, capacityHistory, records, limit)| < limit ==>
      FromLog(RecentTier(records, limit), Tiers(lower, h, capacityHistory, records, limit))
  {
    CascadeParts(limit, BusTier(lower, h, records, limit), KnownCaseTier(lower, h, records, limit),
      HistoryTier(lower, h, capacityHistory, records, limit), RecentTier(records, limit));
  }

  lemma MergedSelection(tiers: seq<Record>, records: seq<Record>, limit: int)
    requires FromLog(tiers, records) && limit > 0
    ensures UniqueIds(Take(Dedupe(tiers), limit)) && FromLog(Take(Dedupe(tiers), limit), records)
  {
    DedupeMeaning(tiers);
    forall x | x in Take(Dedupe(tiers), limit) ensures x in records {
      DedupeKeepsFirst(tiers, x);
      var a: nat :| FirstWithId(tiers, a) && tiers[a] == x;
    }
  }

  /** At most `limit` records of the log, each at most once. */
  lemma SelectionIsDuplicateFree(lower: string -> string, h: Hints, capacityHistory: bool, records: seq<Record>, limit: int)
    requires UniqueIds(records) && limit > 0
    ensures var r := Selection(lower, h, capacityHistory, records, limit);
      && UniqueIds(r) && |r| <= limit && FromLog(r, records)
  {
    TiersFromLog(lower, h, capacityHistory, records, limit);
    MergedSelection(Tiers(lower, h, capacityHistory, records, limit), records, limit);
  }

  lemma MergedPrefix(first: seq<Record>, tiers: seq<Record>, limit: int)
    requires UniqueIds(first) && first <= tiers && |first| <= limit
    ensures first <= Take(Dedupe(tiers), limit)
  {
    var rest := tiers[|first|..];
    assert tiers == first + rest;
    DedupeGrows(first, rest);
    DedupeUnique(first);
  }

  /** The records of the named bus come first, and no later tier displaces any of them. */
  lemma BusRecordsComeFirst(lower: string -> string, h: Hints, capacityHistory: bool, records: seq<Record>, limit: int)
    requires UniqueIds(records) && limit > 0
    ensures BusTier(lower, h, records, limit) <= Selection(lower, h, capacityHistory, records, limit)
  {
    TiersUnique(lower, h, records, limit);
    TiersParts(lower, h, capacityHistory, records, limit);
    MergedPrefix(BusTier(lower, h, records, limit), Tiers(lower, h, capacityHistory, records, limit), limit);
  }

  /** With a known case the prompt holds at least as many records as the case has, up to the limit. */
  lemma CaseFillsPrompt(lower: string -> string, h: Hints, capacityHistory: bool, records: seq<Record>, limit: int)
    requires UniqueIds(records) && limit > 0 && CaseKnown(h)
    ensures |Selection(lower, h, capacityHistory, records, limit)|
      >= Min(limit, |Filter(records, OnCase(lower, Strip(h.casePath.value)))|)
  {
    TiersUnique(lower, h, records, limit);
    TiersParts(lower, h, capacityHistory, records, limit);
    var onBus := BusTier(lower, h, records, limit);
    if |onBus| >= limit {
      BusRecordsComeFirst(lower, h, capacityHistory, records, limit);
    } else {
      DedupeCovers(Tiers(lower, h, capacityHistory, records, limit), CaseTier(lower, h, records, limit));
    }
  }

  lemma MergedIsFull(tiers: seq<Record>, part: seq<Record>, records: seq<Record>, limit: int)
    requires UniqueIds(records) && FromLog(tiers, records)
    requires UniqueIds(part) && FromLog(part, tiers) && |part| == Min(limit, |records|) && limit > 0
    ensures |Take(Dedupe(tiers), limit)| == Min(limit, |records|)
  {
    DedupeCovers(tiers, part);
    DedupeMeaning(tiers);
    DedupeUnique(records);
    IdsSubset(tiers, records);
  }

  /** When the earlier tiers list fewer than `limit` entries, repeats included, the recent tier is asked and the
      prompt is as full as the log allows. */
  lemma RecentFillsPrompt(lower: string -> string, h: Hints, capacityHistory: bool, records: seq<Record>, limit: int)
    requires UniqueIds(records) && limit > 0
    requires |BeforeRecent(lower, h, capacityHistory, records, limit)| < limit
    ensures |Selection(lower, h, capacityHistory, records, limit)| == Min(limit, |records|)
  {
    FilterAll(records, Anything());
    TiersUnique(lower, h, records, limit);
    TiersParts(lower, h, capacityHistory, records, limit);
    TiersFromLog(lower, h, capacityHistory, records, limit);
    MergedIsFull(Tiers(lower, h, capacityHistory, records, limit), RecentTier(records, limit), records, limit);
  }

  // The number of records each tier draws from.
  function BusCount(lower: string -> string, h: Hints, records: seq<Record>): nat {
    if CaseKnown(h) && h.bus.Some? then |Filter(records, OnBus(lower, Strip(h.casePath.value), h.bus.value))| else 0
  }

  function CaseRecords(lower: string -> string, h: Hints, records: seq<Record>): seq<Record> {
    if CaseKnown(h) then Filter(records, OnCase(lower, Strip(h.casePath.value))) else []
  }

  function CapacityCount(lower: string -> string, h: Hints, capacityHistory: bool, records: seq<Record>): nat {
    if capacityHistory then |Filter(records, CapacityRun(lower, h.casePath, h.bus, h.connectionType))| else 0
  }

  /** Repeats use up the limit: the bus tier and the case tier together, or only once the capacity tier has been added. */
  predicate Starved(b: nat, n: nat, c: nat, limit: int) {
    (b < limit && n < limit && b + n >= limit) || (b + n < limit && c < limit && b + n + c >= limit)
  }

  // A tier of `total` matches, all of them when they fit.
  ghost predicate Tier(tier: seq<Record>, total: nat, limit: int, source: seq<Record>) {
    |tier| == Min(limit, total) && UniqueIds(tier) && FromLog(tier, source)
  }

  lemma FullBy(tiers: seq<Record>, part: seq<Record>, records: seq<Record>, limit: int)
    requires UniqueIds(records) && FromLog(tiers, records) && limit > 0
    requires UniqueIds(part) && FromLog(part, tiers) && |part| == limit
    ensures |Take(Dedupe(tiers), limit)| == Min(limit, |records|)
  {
    IdsSubset(part, records);
    DedupeUnique(part);
    DedupeUnique(records);
    MergedIsFull(tiers, part, records, limit);
  }

  lemma OnlyThese(tiers: seq<Record>, part: seq<Record>, limit: int)
    requires UniqueIds(part) && FromLog(tiers, part) && FromLog(part, tiers) && |part| < limit
    ensures |Take(Dedupe(tiers), limit)| == |part|
  {
    DedupeMeaning(tiers);
    DedupeUnique(part);
    assert Ids(tiers) == Ids(part);
  }

  lemma CascadeCount(limit: int, records: seq<Record>, ofCase: seq<Record>, onBus: seq<Record>, onCase: Option<seq<Record>>,
                     capacity: Option<seq<Record>>, recent: seq<Record>, b: nat, c: nat)
    requires limit > 0 && UniqueIds(records) && UniqueIds(ofCase) && FromLog(ofCase, records)
    requires Tier(onBus, b, limit, ofCase) && Tier(recent, |records|, limit, records)
    requires onCase.Some? ==> Tier(onCase.value, |ofCase|, limit, ofCase) && (|ofCase| < limit ==> FromLog(ofCase, onCase.value))
    requires onCase.None? ==> ofCase == [] && b == 0
    requires capacity.Some? ==> Tier(capacity.value, c, limit, if onCase.Some? then ofCase else records)
    requires capacity.None? ==> c == 0
    ensures |Take(Dedupe(Cascade(limit, onBus, onCase, capacity, recent)), limit)| ==
      if Starved(b, |ofCase|, c, limit) then |ofCase| else Min(limit, |records|)
  {
    var tiers, n := Cascade(limit, onBus, onCase, capacity, recent), |ofCase|;
    CascadeSources(limit, onBus, onCase, capacity, recent, records);
    CascadeParts(limit, onBus, onCase, capacity, recent);
    if b >= limit {
      FullBy(tiers, onBus, records, limit);
    } else if n >= limit {
      FullBy(tiers, onCase.value, records, limit);
    } else if b + n >= limit {
      OnlyThese(tiers, ofCase, limit);
    } else if capacity.Some? && c >= limit {
      FullBy(tiers, capacity.value, records, limit);
    } else if b + n + c >= limit {
      OnlyThese(tiers, ofCase, limit);
    } else {
      MergedIsFull(tiers, recent, records, limit);
    }
  }

  lemma FilterUnique(records: seq<Record>, matches: Record -> bool)
    requires UniqueIds(records)
    ensures UniqueIds(Filter(records, matches)) && FromLog(Filter(records, matches), records)
  {
    var all := Filter(records, matches);
    assert Distinct(records);
    FilterDistinct(records, matches);
    forall i, j | 0 <= i < j < |all| ensures all[i].id != all[j].id {
      assert all[i] in all && all[j] in all && all[i] != all[j];
      SameIdSameRecord(records, all[i], all[j]);
    }
  }

  lemma RecallTier(records: seq<Record>, matches: Record -> bool, limit: int, source: seq<Record>)
    requires UniqueIds(records) && limit > 0 && forall r | r in records && matches(r) :: r in source
    ensures Tier(Recall(records, matches, limit), |Filter(records, matches)|, limit, source)
    ensures |Filter(records, matches)| < limit ==> FromLog(Filter(records, matches), Recall(records, matches, limit))
  {
    RecallUnique(records, matches, limit);
  }

  // Every record of the bus and every capacity run the hints allow is a record of the known case.
  lemma NarrowerMatches(lower: string -> string, h: Hints, records: seq<Record>)
    requires CaseKnown(h)
    ensures h.bus.Some? ==> forall r | OnBus(lower, Strip(h.casePath.value), h.bus.value)(r) :: OnCase(lower, Strip(h.casePath.value))(r)
    ensures forall r | CapacityRun(lower, h.casePath, h.bus, h.connectionType)(r) :: OnCase(lower, Strip(h.casePath.value))(r)
  {
    StripIdempotent(h.casePath.value);
  }

  lemma TierCounts(lower: string -> string, h: Hints, capacityHistory: bool, records: seq<Record>, limit: int)
    requires UniqueIds(records) && limit > 0
    ensures var ofCase := CaseRecords(lower, h, records); var onCase := KnownCaseTier(lower, h, records, limit);
      var capacity := HistoryTier(lower, h, capacityHistory, records, limit);
      && UniqueIds(ofCase) && FromLog(ofCase, records)
      && Tier(BusTier(lower, h, records, limit), BusCount(lower, h, records), limit, ofCase)
      && (onCase.Some? ==> Tier(onCase.value, |ofCase|, limit, ofCase) && (|ofCase| < limit ==> FromLog(ofCase, onCase.value)))
      && (capacity.Some? ==> Tier(capacity.value, CapacityCount(lower, h, capacityHistory, records), limit, if onCase.Some? then ofCase else records))
      && Tier(RecentTier(records, limit), |records|, limit, records)
  {
    var ofCase := CaseRecords(lower, h, records);
    if CaseKnown(h) {
      NarrowerMatches(lower, h, records);
      FilterUnique(records, OnCase(lower, Strip(h.casePath.value)));
      RecallTier(records, OnCase(lower, Strip(h.casePath.value)), limit, ofCase);
      if h.bus.Some? {
        RecallTier(records, OnBus(lower, Strip(h.casePath.value), h.bus.value), limit, ofCase);
      }
    }
    RecallTier(records, CapacityRun(lower, h.casePath, h.bus, h.connectionType), limit, if CaseKnown(h) then ofCase else records);
    FilterAll(records, Anything());
    RecallTier(records, Anything(), limit, records);
  }

  /** How many records are shown, exactly: repeats count against the limit before they are removed, so the prompt holds
      only the records of the case when the tiers before the recent one are starved, and as many as the log allows
      otherwise. It falls short exactly when starved although the log has records of other cases. */
  lemma RepeatsStarvePrompt(lower: string -> string, h: Hints, capacityHistory: bool, records: seq<Record>, limit: int)
    requires UniqueIds(records) && limit > 0
    ensures var shown, n := |Selection(lower, h, capacityHistory, records, limit)|, |CaseRecords(lower, h, records)|;
      var starved := Starved(BusCount(lower, h, records), n, CapacityCount(lower, h, capacityHistory, records), limit);
      && shown == (if starved then n else Min(limit, |records|))
      && (shown < Min(limit, |records|) <==> starved && n < |records|)
  {
    TierCounts(lower, h, capacityHistory, records, limit);
    CascadeCount(limit, records, CaseRecords(lower, h, records), BusTier(lower, h, records, limit), KnownCaseTier(lower, h, records, limit),
      HistoryTier(lower, h, capacityHistory, records, limit), RecentTier(records, limit),
      BusCount(lower, h, records), CapacityCount(lower, h, capacityHistory, records));
  }

  function Entry(id: string, casePath: string): Record { Record(id, "t", "run_cia", casePath, Some(1), None, None, "s", "s", "") }

  lemma FilterOfTwo(x: Record, y: Record, matches: Record -> bool)
    requires matches(x) && !matches(y)
    ensures Filter([x, y], matches) == [x]
  {
    assert [x, y][..1] == [x];
    assert [x][..0] == [];
  }

  function Identity(s: string): string { s }

  const ON_BUS_A := Hints(Some("a"), Some(1), None)

  lemma ExampleCounts()
    ensures BusCount(Identity, ON_BUS_A, [Entry("1", "a"), Entry("2", "b")]) == 1
    ensures |CaseRecords(Identity, ON_BUS_A, [Entry("1", "a"), Entry("2", "b")])| == 1
  {
    StripFixed("a");
    StripFixed("b");
    FilterOfTwo(Entry("1", "a"), Entry("2", "b"), OnBus(Identity, "a", 1));
    FilterOfTwo(Entry("1", "a"), Entry("2", "b"), OnCase(Identity, "a"));
  }

  /** Two records, one of them of the case and on the bus, and room for two: the prompt shows one. */
  lemma StarvedPromptExample()
    ensures |Selection(Identity, ON_BUS_A, false, [Entry("1", "a"), Entry("2", "b")], 2)| == 1
  {
    ExampleCounts();
    RepeatsStarvePrompt(Identity, ON_BUS_A, false, [Entry("1", "a"), Entry("2", "b")], 2);
  }

  /** Each group of tiers asked first heads the selection, up to its cut: bus, then case, then capacity, then recent. */
  lemma TiersKeepOrder(lower: string -> string, h: Hints, capacityHistory: bool, records: seq<Record>, limit: int)
    requires limit > 0
    ensures var selection := Selection(lower, h, capacityHistory, records, limit);
      && Take(Dedupe(BusTier(lower, h, records, limit)), limit) <= selection
      && Take(Dedupe(BeforeCapacity(lower, h, records, limit)), limit) <= selection
      && Take(Dedupe(BeforeRecent(lower, h, capacityHistory, records, limit)), limit) <= selection
  {
    var tiers := Tiers(lower, h, capacityHistory, records, limit);
    CascadePrefixes(limit, BusTier(lower, h, records, limit), KnownCaseTier(lower, h, records, limit),
      HistoryTier(lower, h, capacityHistory, records, limit), RecentTier(records, limit));
    PrefixHeads(BusTier(lower, h, records, limit), tiers, limit);
    PrefixHeads(BeforeCapacity(lower, h, records, limit), tiers, limit);
    PrefixHeads(BeforeRecent(lower, h, capacityHistory, records, limit), tiers, limit);
  }

  lemma PrefixHeads(first: seq<Record>, tiers: seq<Record>, limit: int)
    requires first <= tiers && limit > 0
    ensures Take(Dedupe(first), limit) <= Take(Dedupe(tiers), limit)
  {
    var rest := tiers[|first|..];
    assert tiers == first + rest;
    DedupeGrows(first, rest);
  }
}
