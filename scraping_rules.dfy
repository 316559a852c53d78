/**
  * The rules `ScrapingManager` applies, stated on values: the statistics
  * counters and how a written row moves them, the CSV row of a place, the
  * filter that picks the places of a search not seen before, and the
  * subdivision of a dense hexagon together with the measure that makes the
  * search queue run dry.
  */
module ScrapingRules {
  import opened Wrappers
  import opened Json
  import opened Extraction
  import opened Hexagons

  // ---------------------------------------------------------------------
  // Statistics

  const WithEmail: string := "businesses_with_email"
  const WithoutEmail: string := "businesses_without_email"
  const ApiCalls: string := "api_calls"
  const PlacesProcessed: string := "places_processed"

  const StatKeys: set<string> := {WithEmail, WithoutEmail, ApiCalls, PlacesProcessed}

  /** The counters of a new manager: the four keys, all zero. */
  function InitialStats(): (r: map<string, int>)
    ensures r.Keys == StatKeys && forall k :: k in r ==> r[k] == 0
  {
    map[WithEmail := 0, WithoutEmail := 0, ApiCalls := 0, PlacesProcessed := 0]
  }

  /**
    * The counters agree with each other: the four keys, no negative count,
    * and every processed place counted once as with or without an address.
    */
  predicate Balanced(stats: map<string, int>)
  {
    && stats.Keys == StatKeys
    && stats[WithEmail] >= 0 && stats[WithoutEmail] >= 0 && stats[ApiCalls] >= 0
    && stats[WithEmail] + stats[WithoutEmail] == stats[PlacesProcessed]
  }

  lemma InitialStatsBalanced()
    ensures Balanced(InitialStats())
  {
  }

  /** `update_stats(**kwargs)`: add each value to its counter; keys that are not counters are ignored. */
  function AddStats(stats: map<string, int>, updates: seq<(string, int)>): (r: map<string, int>)
    ensures r.Keys == stats.Keys
  {
    if updates == [] then stats
    else
      var s := AddStats(stats, updates[..|updates| - 1]);
      var (key, value) := updates[|updates| - 1];
      if key in s then s[key := s[key] + value] else s
  }

  /** The total of the values given for `key`. */
  function SumFor(updates: seq<(string, int)>, key: string): int
  {
    if updates == [] then 0
    else SumFor(updates[..|updates| - 1], key) + (if updates[|updates| - 1].0 == key then updates[|updates| - 1].1 else 0)
  }

  /**
    * Each counter grows by the total given for it, whatever the order of
    * the updates; no key is added.
    */
  lemma {:induction false} AddStatsSums(stats: map<string, int>, updates: seq<(string, int)>, key: string)
    requires key in stats
    ensures key in AddStats(stats, updates)
    ensures AddStats(stats, updates)[key] == stats[key] + SumFor(updates, key)
  {
    if updates != [] {
      AddStatsSums(stats, updates[..|updates| - 1], key);
    }
  }

  /** An update naming an unknown key changes nothing. */
  lemma AddStatsIgnoresUnknown(stats: map<string, int>, key: string, value: int)
    requires key !in stats
    ensures AddStats(stats, [(key, value)]) == stats
  {
    assert [(key, value)][..0] == [];
  }

  /** A single update of a counter. */
  lemma AddStatsOne(stats: map<string, int>, key: string, value: int)
    requires key in stats
    ensures AddStats(stats, [(key, value)]) == stats[key := stats[key] + value]
  {
    assert [(key, value)][..0] == [];
  }

  /** The counter `write_to_csv` moves besides `places_processed`. */
  function EmailKey(hasEmails: bool): string
  {
    if hasEmails then WithEmail else WithoutEmail
  }

  /** The counters after a successful `write_to_csv`. */
  function RecordRow(stats: map<string, int>, hasEmails: bool): map<string, int>
  {
    AddStats(AddStats(stats, [(EmailKey(hasEmails), 1)]), [(PlacesProcessed, 1)])
  }

  /**
    * A written row adds one processed place and one place with or without
    * an address, as `has_emails` says, and touches no other counter: the
    * counters stay balanced.
    */
  lemma RecordRowCounts(stats: map<string, int>, hasEmails: bool)
    requires Balanced(stats)
    ensures var r := RecordRow(stats, hasEmails);
      && Balanced(r)
      && r[PlacesProcessed] == stats[PlacesProcessed] + 1
      && r[WithEmail] == stats[WithEmail] + (if hasEmails then 1 else 0)
      && r[WithoutEmail] == stats[WithoutEmail] + (if hasEmails then 0 else 1)
      && r[ApiCalls] == stats[ApiCalls]
  {
    AddStatsOne(stats, EmailKey(hasEmails), 1);
    var s := AddStats(stats, [(EmailKey(hasEmails), 1)]);
    AddStatsOne(s, PlacesProcessed, 1);
  }

  /** Counting search requests keeps the counters balanced and leaves the place counters alone. */
  lemma CountCallsKeepsBalance(stats: map<string, int>, calls: nat)
    requires Balanced(stats)
    ensures var r := AddStats(stats, [(ApiCalls, calls)]);
      && Balanced(r)
      && r[ApiCalls] == stats[ApiCalls] + calls
      && r[WithEmail] == stats[WithEmail] && r[WithoutEmail] == stats[WithoutEmail]
      && r[PlacesProcessed] == stats[PlacesProcessed]
  {
    AddStatsOne(stats, ApiCalls, calls);
  }

  // ---------------------------------------------------------------------
  // CSV rows

  /** `COLUMNS`: the fields of a CSV row, in order. */
  const Columns: seq<string> := [
    "place_id", "name", "business_status", "formatted_address", "website", "formatted_phone_number",
    "address_components", "adr_address", "geometry", "icon", "icon_mask_base_uri", "icon_background_color",
    "permanently_closed", "photos", "plus_code", "types", "url", "utc_offset", "vicinity", "wheelchair_accessible_entrance",
    "current_opening_hours", "international_phone_number", "opening_hours", "secondary_opening_hours",
    "curbside_pickup", "delivery", "dine_in", "editorial_summary", "price_level", "rating",
    "reservable", "reviews", "serves_beer", "serves_breakfast", "serves_brunch", "serves_dinner",
    "serves_lunch", "serves_vegetarian_food", "serves_wine", "takeout", "user_ratings_total",
    "emails", "facebook", "twitter_x", "instagram", "linkedin", "h3_index", "search_lat", "search_lng", "city"]

  /** The key a platform's links are stored under in a place's details. */
  function PlatformKey(p: Platform): string
  {
    match p
    case Facebook => "facebook"
    case Instagram => "instagram"
    case LinkedIn => "linkedin"
    case TwitterX => "twitter_x"
  }

  /** Every platform's links have a column of their own in the CSV file. */
  lemma PlatformKeyIsColumn(p: Platform)
    ensures PlatformKey(p) in Columns
    ensures forall q :: q != p ==> PlatformKey(q) != PlatformKey(p)
  {
  }

  /** A row of a CSV file: a text per column. */
  type Row = map<string, string>

  /**
    * `{col: flatten_value(details.get(col, "")) for col in COLUMNS}`: every
    * column, each the flattened value of the detail of that name, and the
    * empty text for a detail the place does not have.
    */
  function RowOf(details: map<string, Value>): (r: Row)
    ensures r.Keys == set c | c in Columns
    ensures forall c :: c in r && c !in details ==> r[c] == ""
    ensures forall c :: c in r && c in details && details[c].Str? ==> r[c] == details[c].s
  {
    map c | c in Columns :: FlattenValue(if c in details then details[c] else Str(""))
  }

  /** The `emails` column holds the JSON list of the addresses, which reads back as the same list. */
  lemma EmailsColumnDecodes(details: map<string, Value>, emails: seq<string>)
    requires "emails" in details && details["emails"] == List(Strs(emails))
    ensures "emails" in RowOf(details)
    ensures DecodeStringList(RowOf(details)["emails"]) == Some(emails)
  {
    assert Columns[41] == "emails";
    FlattenStringListRoundTrip(emails);
  }

  // ---------------------------------------------------------------------
  // New places of a search

  /** `p.get("place_id")`; a result that is not an object has none. */
  function PlaceId(p: Value): Value
  {
    if p.Object? then GetOr(p.fields, "place_id", Null) else Null
  }

  /**
    * `[p for p in results if p.get("place_id") and p["place_id"] not in existing]`:
    * the results, in order, with a set id not seen before this search.
    */
  function NewPlaces(results: seq<Value>, existing: set<Value>): (r: seq<Value>)
    ensures |r| <= |results|
  {
    if results == [] then []
    else
      var p := results[|results| - 1];
      NewPlaces(results[..|results| - 1], existing) + (if Truthy(PlaceId(p)) && PlaceId(p) !in existing then [p] else [])
  }

  /**
    * A result is dispatched exactly when its id is set and was not seen
    * before the batch: a missing or empty id, or an id seen before, is never
    * dispatched.
    */
  lemma {:induction false} NewPlacesExactly(results: seq<Value>, existing: set<Value>, p: Value)
    ensures p in NewPlaces(results, existing) <==> p in results && Truthy(PlaceId(p)) && PlaceId(p) !in existing
  {
    if results != [] {
      var init := results[..|results| - 1];
      NewPlacesExactly(init, existing, p);
      assert results == init + [results[|results| - 1]];
    }
  }

  /** The ids of some places. */
  function Ids(places: seq<Value>): (r: set<Value>)
    ensures forall p :: p in places ==> PlaceId(p) in r
    ensures forall i :: i in r ==> exists p :: p in places && PlaceId(p) == i
  {
    set p | p in places :: PlaceId(p)
  }

  /**
    * The filter looks only at the ids seen before the batch: a place listed
    * twice in one search result is dispatched twice.
    */
  lemma InBatchDuplicateDispatchedTwice(p: Value, existing: set<Value>)
    requires Truthy(PlaceId(p)) && PlaceId(p) !in existing
    ensures NewPlaces([p, p], existing) == [p, p]
  {
    assert [p, p][..1] == [p];
    assert [p][..0] == [];
  }

  // ---------------------------------------------------------------------
  // Subdivision of dense hexagons

  /** The number of results from which a hexagon counts as dense. */
  const DensityThreshold: int := 58

  /** A search task: an H3 cell and its resolution. */
  datatype Task = Task(cell: string, res: int)

  /** `h3.h3_to_children` and `h3.h3_to_geo`, as the H3 library computes them. */
  datatype H3Lib = H3Lib(children: (string, int) -> seq<string>, center: string -> (Value, Value))

  /** A task is subdivided when its search found at least 58 results and its cell can still be refined. */
  predicate Dense(resultCount: int, res: int)
  {
    resultCount >= DensityThreshold && res < MaxH3Resolution
  }

  /** The tasks of some cells at one resolution, in order. */
  function TasksOf(cells: seq<string>, res: int): (r: seq<Task>)
    ensures |r| == |cells|
    ensures forall i :: 0 <= i < |r| ==> r[i] == Task(cells[i], res)
  {
    seq(|cells|, i requires 0 <= i < |cells| => Task(cells[i], res))
  }

  /** The tasks a dense task is replaced by: its cell's children, one resolution finer. */
  function Subdivide(h3: H3Lib, t: Task): (r: seq<Task>)
    requires t.res < MaxH3Resolution
    ensures forall c :: c in r ==> c.res == t.res + 1 && c.res <= MaxH3Resolution
  {
    TasksOf(h3.children(t.cell, t.res + 1), t.res + 1)
  }

  /** How many more levels a cell of resolution `res` can be refined. */
  function Depth(res: int): nat
  {
    if res < MaxH3Resolution then MaxH3Resolution - res else 0
  }

  /** The number of tasks a task can give rise to, itself included: the size of its subdivision tree. */
  ghost function TreeSize(h3: H3Lib, cell: string, res: int): nat
    decreases Depth(res), 1, 0
  {
    if res >= MaxH3Resolution then 1
    else 1 + ForestSize(h3, h3.children(cell, res + 1), res + 1)
  }

  ghost function ForestSize(h3: H3Lib, cells: seq<string>, res: int): nat
    decreases Depth(res), 2, |cells|
  {
    if cells == [] then 0 else TreeSize(h3, cells[0], res) + ForestSize(h3, cells[1..], res)
  }

  /** The work left in a queue: the sizes of the subdivision trees of its tasks. */
  ghost function QueueMeasure(h3: H3Lib, queue: seq<Task>): nat
  {
    if queue == [] then 0 else TreeSize(h3, queue[0].cell, queue[0].res) + QueueMeasure(h3, queue[1..])
  }

  lemma {:induction false} QueueMeasureAppend(h3: H3Lib, a: seq<Task>, b: seq<Task>)
    ensures QueueMeasure(h3, a + b) == QueueMeasure(h3, a) + QueueMeasure(h3, b)
  {
    if a != [] {
      assert (a + b)[1..] == a[1..] + b;
      QueueMeasureAppend(h3, a[1..], b);
    } else {
      assert a + b == b;
    }
  }

  lemma {:induction false} TasksOfMeasure(h3: H3Lib, cells: seq<string>, res: int)
    ensures QueueMeasure(h3, TasksOf(cells, res)) == ForestSize(h3, cells, res)
  {
    if cells != [] {
      assert TasksOf(cells, res)[1..] == TasksOf(cells[1..], res);
      TasksOfMeasure(h3, cells[1..], res);
    }
  }

  /**
    * Taking the head of the queue and appending what it is replaced by
    * (its children when it is dense, nothing otherwise) strictly shrinks
    * the work left: the search queue always runs dry.
    */
  lemma QueueShrinks(h3: H3Lib, queue: seq<Task>, dense: bool)
    requires queue != []
    requires dense ==> queue[0].res < MaxH3Resolution
    ensures var next := if dense then Subdivide(h3, queue[0]) else [];
      QueueMeasure(h3, queue[1..] + next) < QueueMeasure(h3, queue)
  {
    var t := queue[0];
    var next := if dense then Subdivide(h3, t) else [];
    QueueMeasureAppend(h3, queue[1..], next);
    if dense {
      TasksOfMeasure(h3, h3.children(t.cell, t.res + 1), t.res + 1);
    }
  }

  // ---------------------------------------------------------------------
  // Runs over a list, one item after the other, until the run must stop

  /**
    * Runs made over `keys` in order, one per key: every run but the last
    * is `exhausted`, and the last one is at least `explored`.
    */
  ghost predicate RunsInOrder<K, R>(keys: seq<K>, runs: seq<R>, explored: (K, R) -> bool, exhausted: (K, R) -> bool)
  {
    && |runs| <= |keys|
    && (forall i :: 0 <= i < |runs| - 1 ==> exhausted(keys[i], runs[i]))
    && (runs != [] ==> explored(keys[|runs| - 1], runs[|runs| - 1]))
  }

  /** Every run made so far is `exhausted`. */
  ghost predicate ExhaustedSoFar<K, R>(keys: seq<K>, runs: seq<R>, exhausted: (K, R) -> bool)
  {
    |runs| <= |keys| && forall i :: 0 <= i < |runs| ==> exhausted(keys[i], runs[i])
  }

  /** One run per key, every one `exhausted`. */
  ghost predicate AllExhausted<K, R>(keys: seq<K>, runs: seq<R>, exhausted: (K, R) -> bool)
  {
    |runs| == |keys| && ExhaustedSoFar(keys, runs, exhausted)
  }

  /**
    * Making the next run after runs that were all exhausted keeps the runs
    * in order, and when the new run is exhausted too, so are all of them.
    */
  lemma {:induction false} RunsStep<K, R>(keys: seq<K>, runs: seq<R>, r: R, explored: (K, R) -> bool, exhausted: (K, R) -> bool)
    requires |runs| < |keys| && ExhaustedSoFar(keys, runs, exhausted)
    requires explored(keys[|runs|], r)
    ensures RunsInOrder(keys, runs + [r], explored, exhausted)
    ensures exhausted(keys[|runs|], r) ==> ExhaustedSoFar(keys, runs + [r], exhausted)
  {
    var runs' := runs + [r];
    forall i | 0 <= i < |runs'| - 1
      ensures exhausted(keys[i], runs'[i])
    {
      assert runs'[i] == runs[i];
    }
    if exhausted(keys[|runs|], r) {
      forall i | 0 <= i < |runs'|
        ensures exhausted(keys[i], runs'[i])
      {
        if i < |runs| {
          assert runs'[i] == runs[i];
        }
      }
    }
  }
}
