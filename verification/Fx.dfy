/** Exchange-rate lookup, plain and cached (src/fx). */
module Fx {
  import opened Wrappers
  import opened Arithmetic
  import opened Domain
  import opened Decimal

  /** The CHAR(3) columns and the validated request field. */
  type CurrencyCode = code: string | |code| == 3 witness "USD"

  datatype RateRow = RateRow(base: CurrencyCode, quote: CurrencyCode, rate: string, effectiveAt: Time, source: string)

  datatype FxRate = FxRate(scaledRate: ScaledRate, rate: string, effectiveAt: Time, source: string)

  datatype Entry = Entry(value: FxRate, expiresAt: Time)

  type Cache = map<string, Entry>

  const CACHE_TTL_MS: int := 60_000

  // ---------- The plain lookup ----------

  predicate Quotes(row: RateRow, base: CurrencyCode, quote: CurrencyCode, asOf: Time) {
    row.base == base && row.quote == quote && row.effectiveAt <= asOf
  }

  /** The newest row of the pair in effect; of equally new ones, the first. */
  function Newest(rows: seq<RateRow>, base: CurrencyCode, quote: CurrencyCode, asOf: Time): (r: Option<RateRow>)
    ensures r.None? <==> forall row :: row in rows ==> !Quotes(row, base, quote, asOf)
    ensures r.Some? ==> r.value in rows && Quotes(r.value, base, quote, asOf)
    ensures r.Some? ==> forall row :: row in rows && Quotes(row, base, quote, asOf) ==> row.effectiveAt <= r.value.effectiveAt
  {
    if rows == [] then None else
      var last := rows[|rows| - 1];
      var rest := Newest(rows[..|rows| - 1], base, quote, asOf);
      assert rows == rows[..|rows| - 1] + [last];
      if Quotes(last, base, quote, asOf) && (rest.None? || last.effectiveAt > rest.value.effectiveAt) then Some(last) else rest
  }

  /** The rate of a row, unless scaleRate rejects its text. */
  function RateIn(row: RateRow): Result<FxRate, DecimalError> {
    match ScaleRate(row.rate)
    case Failure(e) => Failure(e)
    case Success(scaled) =>
      ScaledRateIsExact(row.rate);
      Success(FxRate(scaled, row.rate, row.effectiveAt, row.source))
  }

  type Answer = Result<Option<FxRate>, DecimalError>

  function Lookup(rows: seq<RateRow>, base: CurrencyCode, quote: CurrencyCode, asOf: Time): Answer {
    var row := Newest(rows, base, quote, asOf);
    if row.None? then Success(None)
    else
      match RateIn(row.value)
      case Failure(e) => Failure(e)
      case Success(value) => Success(Some(value))
  }

  /** The rate carries the row's text, time and source, and the scaled value of that text. */
  predicate ReadFrom(value: FxRate, row: RateRow) {
    && value.rate == row.rate && value.effectiveAt == row.effectiveAt && value.source == row.source
    && ScaleRate(row.rate) == Success(value.scaledRate)
  }

  /** Row `k` is the first of the newest rows of the pair that are in effect. */
  predicate IsNewestRow(rows: seq<RateRow>, k: nat, base: CurrencyCode, quote: CurrencyCode, asOf: Time) {
    && k < |rows| && rows[k].base == base && rows[k].quote == quote && rows[k].effectiveAt <= asOf
    && (forall j :: 0 <= j < |rows| && rows[j].base == base && rows[j].quote == quote && rows[j].effectiveAt <= asOf ==>
          rows[j].effectiveAt < rows[k].effectiveAt || (rows[j].effectiveAt == rows[k].effectiveAt && k <= j))
  }

  lemma NewestIsRow(rows: seq<RateRow>, k: nat, base: CurrencyCode, quote: CurrencyCode, asOf: Time)
    requires IsNewestRow(rows, k, base, quote, asOf)
    ensures Newest(rows, base, quote, asOf) == Some(rows[k])
  {
    var n := |rows| - 1;
    if k < n {
      NewestIsRow(rows[..n], k, base, quote, asOf);
    } else if Newest(rows[..n], base, quote, asOf).Some? {
      var row := Newest(rows[..n], base, quote, asOf).value;
      var j :| 0 <= j < n && rows[..n][j] == row;
      assert rows[j] == row && rows[j].effectiveAt < rows[k].effectiveAt;
    }
  }

  /**
   * The lookup answers with the text, time, source and scaled rate of the newest row of the pair in
   * effect, with the error of its text if that is no rate, and with nothing if there is no such row.
   */
  lemma {:induction false} LookupMeaning(rows: seq<RateRow>, base: CurrencyCode, quote: CurrencyCode, asOf: Time, k: nat)
    requires IsNewestRow(rows, k, base, quote, asOf)
      || forall j :: 0 <= j < |rows| ==> !(rows[j].base == base && rows[j].quote == quote && rows[j].effectiveAt <= asOf)
    ensures var r := Lookup(rows, base, quote, asOf);
      if !IsNewestRow(rows, k, base, quote, asOf) then r == Success(None)
      else if ScaleRate(rows[k].rate).Failure? then r == Failure(ScaleRate(rows[k].rate).error)
      else r.Success? && r.value.Some? && ReadFrom(r.value.value, rows[k])
  {
    if IsNewestRow(rows, k, base, quote, asOf) { NewestIsRow(rows, k, base, quote, asOf); }
  }

  class StaticRateProvider {
    const rates: seq<RateRow>

    constructor (rates: seq<RateRow>)
      ensures this.rates == rates
    {
      this.rates := rates;
    }

    method RateFor(base: CurrencyCode, quote: CurrencyCode, asOf: Time) returns (r: Answer)
      ensures r == Lookup(rates, base, quote, asOf)
    {
      var newest: Option<RateRow> := None;
      for i := 0 to |rates|
        invariant newest == Newest(rates[..i], base, quote, asOf)
      {
        var entry := rates[i];
        assert rates[..i + 1][..i] == rates[..i];
        if entry.base != base || entry.quote != quote {
          continue;
        }
        if entry.effectiveAt > asOf {
          continue;
        }
        if newest.None? || entry.effectiveAt > newest.value.effectiveAt {
          newest := Some(entry);
        }
      }
      assert rates[..|rates|] == rates;
      if newest.None? {
        return Success(None);
      }
      var scaled := ScaleRate(newest.value.rate);
      if scaled.Failure? {
        return Failure(scaled.error);
      }
      ScaledRateIsExact(newest.value.rate);
      r := Success(Some(FxRate(scaled.value, newest.value.rate, newest.value.effectiveAt, newest.value.source)));
    }
  }

  // ---------- The cache ----------

  function KeyFor(base: CurrencyCode, quote: CurrencyCode): string {
    base + ":" + quote
  }

  lemma KeysAreDistinct(b: CurrencyCode, q: CurrencyCode, c: CurrencyCode, r: CurrencyCode)
    requires KeyFor(b, q) == KeyFor(c, r)
    ensures b == c && q == r
  {
    assert b == KeyFor(b, q)[..3] && q == KeyFor(b, q)[4..];
    assert c == KeyFor(c, r)[..3] && r == KeyFor(c, r)[4..];
  }

  /** What a caller asks, and when: `now` is read once, before the table is queried. */
  datatype Question = Question(base: CurrencyCode, quote: CurrencyCode, asOf: Time, now: Time)

  function KeyOf(q: Question): string {
    KeyFor(q.base, q.quote)
  }

  function LookupFor(rows: seq<RateRow>, q: Question): Answer {
    Lookup(rows, q.base, q.quote, q.asOf)
  }

  predicate Fresh(entry: Entry, q: Question) {
    entry.expiresAt > q.now && q.asOf >= entry.value.effectiveAt
  }

  function Cached(cache: Cache, key: string): Option<Entry> {
    if key in cache then Some(cache[key]) else None
  }

  /** A call up to its query: answered from the cache, or holding the entry it captured there, if any. */
  datatype Begun = Hit(value: FxRate) | Miss(captured: Option<Entry>)

  function Begin(cache: Cache, q: Question): Begun {
    var cached := Cached(cache, KeyOf(q));
    if cached.Some? && Fresh(cached.value, q) then Hit(cached.value.value) else Miss(cached)
  }

  /** The rest of the call: the query, and a write that compares with the captured entry, not the present one. */
  function Finish(cache: Cache, captured: Option<Entry>, rows: seq<RateRow>, q: Question): (Cache, Answer) {
    var found := LookupFor(rows, q);
    if found.Failure? || found.value.None? then (cache, found)
    else
      var value := found.value.value;
      (if captured.None? || value.effectiveAt >= captured.value.value.effectiveAt then
         cache[KeyOf(q) := Entry(value, q.now + CACHE_TTL_MS)]
       else cache,
       found)
  }

  /** A call that nothing else overlaps. */
  function CachedLookup(cache: Cache, rows: seq<RateRow>, q: Question): (Cache, Answer) {
    match Begin(cache, q)
    case Hit(value) => (cache, Success(Some(value)))
    case Miss(captured) => Finish(cache, captured, rows, q)
  }

  /** rateFor awaits its query, so other calls may run between the two halves of one. */
  class CachedRateProvider {
    var cache: Cache

    constructor ()
      ensures cache == map[]
    {
      cache := map[];
    }

    /** Up to the query. */
    method Start(q: Question) returns (b: Begun)
      ensures b == Begin(cache, q)
    {
      var key := q.base + ":" + q.quote;
      var cached: Option<Entry> := if key in cache then Some(cache[key]) else None;
      if cached.Some? && cached.value.expiresAt > q.now && q.asOf >= cached.value.value.effectiveAt {
        return Hit(cached.value.value);
      }
      b := Miss(cached);
    }

    /** From the query on; `table` is what fx_rate holds by then. */
    method Complete(q: Question, captured: Option<Entry>, table: StaticRateProvider) returns (r: Answer)
      modifies this
      ensures (cache, r) == Finish(old(cache), captured, table.rates, q)
    {
      r := table.RateFor(q.base, q.quote, q.asOf);
      if r.Failure? || r.value.None? {
        return;
      }
      var value := r.value.value;
      if captured.None? || value.effectiveAt >= captured.value.value.effectiveAt {
        cache := cache[q.base + ":" + q.quote := Entry(value, q.now + CACHE_TTL_MS)];
      }
    }

    /** One call, when nothing overlaps it. */
    method RateFor(q: Question, table: StaticRateProvider) returns (r: Answer)
      modifies this
      ensures (cache, r) == CachedLookup(old(cache), table.rates, q)
    {
      var begun := Start(q);
      match begun {
        case Hit(value) => r := Success(Some(value));
        case Miss(captured) => r := Complete(q, captured, table);
      }
    }

    method ClearCache()
      modifies this
      ensures cache == map[]
    {
      cache := map[];
    }
  }

  // ---------- Histories of overlapping calls ----------

  /** A call begins, a begun call that missed goes on over the table as it then is, or the cache is cleared. */
  datatype Event = Ask(question: Question) | Resume(asked: nat, rows: seq<RateRow>) | Clear

  function BegunAt(events: seq<Event>, k: nat): Begun
    requires k < |events| && events[k].Ask?
    decreases |events|, 0
  {
    Begin(CacheAfter(events[..k]), events[k].question)
  }

  /** The event resumes a call of the history that missed. */
  predicate Resumes(events: seq<Event>, e: Event)
    decreases |events|, 1
  {
    e.Resume? && e.asked < |events| && events[e.asked].Ask? && BegunAt(events, e.asked).Miss?
  }

  function Resumed(events: seq<Event>, e: Event): Question
    requires Resumes(events, e)
    decreases |events|, 2
  {
    events[e.asked].question
  }

  function CapturedBy(events: seq<Event>, e: Event): Option<Entry>
    requires Resumes(events, e)
    decreases |events|, 2
  {
    BegunAt(events, e.asked).captured
  }

  function After(events: seq<Event>, cache: Cache, e: Event): Cache
    decreases |events|, 3
  {
    match e
    case Ask(_) => cache
    case Resume(_, rows) =>
      if Resumes(events, e) then Finish(cache, CapturedBy(events, e), rows, Resumed(events, e)).0 else cache
    case Clear => map[]
  }

  function CacheAfter(events: seq<Event>): Cache
    decreases |events|
  {
    if events == [] then map[]
    else
      var before := events[..|events| - 1];
      After(before, CacheAfter(before), events[|events| - 1])
  }

  /** Whom an event answers, and what, if it answers anyone. */
  datatype Reply = Reply(question: Question, answer: Answer)

  function ReplyTo(events: seq<Event>, e: Event): Option<Reply> {
    match e
    case Ask(q) =>
      var begun := Begin(CacheAfter(events), q);
      if begun.Hit? then Some(Reply(q, Success(Some(begun.value)))) else None
    case Resume(_, rows) =>
      if Resumes(events, e) then Some(Reply(Resumed(events, e), LookupFor(rows, Resumed(events, e)))) else None
    case Clear => None
  }

  lemma OneMore(events: seq<Event>, e: Event)
    ensures CacheAfter(events + [e]) == After(events, CacheAfter(events), e)
  {
    assert (events + [e])[..|events|] == events;
  }

  // ---------- What holds however calls overlap ----------

  /** Some query of the history saw a row of the pair from which the rate was read. */
  predicate Stored(events: seq<Event>, base: CurrencyCode, quote: CurrencyCode, value: FxRate) {
    exists k, row :: 0 <= k < |events| && events[k].Resume? && row in events[k].rows
      && row.base == base && row.quote == quote && ReadFrom(value, row)
  }

  lemma StoredIsKept(events: seq<Event>, e: Event, base: CurrencyCode, quote: CurrencyCode, value: FxRate)
    requires Stored(events, base, quote, value)
    ensures Stored(events + [e], base, quote, value)
  {
    var k, row :| 0 <= k < |events| && events[k].Resume? && row in events[k].rows
      && row.base == base && row.quote == quote && ReadFrom(value, row);
    assert (events + [e])[k] == events[k];
  }

  lemma LookupIsStored(events: seq<Event>, e: Event, q: Question, value: FxRate)
    requires e.Resume? && LookupFor(e.rows, q) == Success(Some(value))
    ensures Stored(events + [e], q.base, q.quote, value) && value.effectiveAt <= q.asOf
  {
    assert (events + [e])[|events|] == e;
    var row := Newest(e.rows, q.base, q.quote, q.asOf).value;
    assert row in e.rows && ReadFrom(value, row);
  }

  /** An event writes at most one entry: the one its query found. */
  lemma WritesFound(events: seq<Event>, e: Event, key: string)
    requires key in CacheAfter(events + [e])
    requires !(key in CacheAfter(events) && CacheAfter(events + [e])[key] == CacheAfter(events)[key])
    ensures Resumes(events, e) && key == KeyOf(Resumed(events, e))
    ensures var q, entry := Resumed(events, e), CacheAfter(events + [e])[key];
      LookupFor(e.rows, q) == Success(Some(entry.value)) && entry.expiresAt == q.now + CACHE_TTL_MS
  {
    OneMore(events, e);
  }

  /** Whatever is cached for a pair was stored for that pair. */
  lemma {:induction false} CachedIsStored(events: seq<Event>, base: CurrencyCode, quote: CurrencyCode)
    ensures KeyFor(base, quote) in CacheAfter(events) ==> Stored(events, base, quote, CacheAfter(events)[KeyFor(base, quote)].value)
  {
    if events != [] && KeyFor(base, quote) in CacheAfter(events) {
      var before, e, key := events[..|events| - 1], events[|events| - 1], KeyFor(base, quote);
      assert events == before + [e];
      CachedIsStored(before, base, quote);
      if key in CacheAfter(before) && CacheAfter(events)[key] == CacheAfter(before)[key] {
        StoredIsKept(before, e, base, quote, CacheAfter(before)[key].value);
      } else {
        WritesFound(before, e, key);
        KeysAreDistinct(base, quote, Resumed(before, e).base, Resumed(before, e).quote);
        LookupIsStored(before, e, Resumed(before, e), CacheAfter(events)[key].value);
      }
    }
  }

  /**
   * However calls overlap, whatever was asked before and whatever the table held, an answered rate is
   * one that was stored for the pair and was in effect at the asked time.
   */
  lemma {:induction false} AnswersAreStoredRates(events: seq<Event>, e: Event)
    requires ReplyTo(events, e).Some?
    ensures var r := ReplyTo(events, e).value;
      r.answer.Success? && r.answer.value.Some? ==>
        Stored(events + [e], r.question.base, r.question.quote, r.answer.value.value)
        && r.answer.value.value.effectiveAt <= r.question.asOf
  {
    var r := ReplyTo(events, e).value;
    if r.answer.Success? && r.answer.value.Some? {
      if e.Ask? {
        CachedIsStored(events, r.question.base, r.question.quote);
        StoredIsKept(events, e, r.question.base, r.question.quote, r.answer.value.value);
      } else {
        LookupIsStored(events, e, r.question, r.answer.value.value);
      }
    }
  }

  /** Every question is about the present, the table never changes, and the clock never goes back. */
  predicate Current(events: seq<Event>, rows: seq<RateRow>) {
    && (forall k :: 0 <= k < |events| && events[k].Ask? ==> events[k].question.asOf == events[k].question.now)
    && (forall k :: 0 <= k < |events| && events[k].Resume? ==> events[k].rows == rows)
    && (forall i, j :: 0 <= i < j < |events| && events[i].Ask? && events[j].Ask? ==>
          events[i].question.now <= events[j].question.now)
  }

  /** The entry is what the plain lookup gave at the instant of some call that had begun by then. */
  lemma {:induction false} EntryWasMade(events: seq<Event>, rows: seq<RateRow>, base: CurrencyCode, quote: CurrencyCode) returns (k: int)
    requires Current(events, rows) && KeyFor(base, quote) in CacheAfter(events)
    ensures 0 <= k < |events| && events[k].Ask?
    ensures var entry, t := CacheAfter(events)[KeyFor(base, quote)], events[k].question.now;
      Lookup(rows, base, quote, t) == Success(Some(entry.value)) && entry.expiresAt == t + CACHE_TTL_MS
  {
    var before, e, key := events[..|events| - 1], events[|events| - 1], KeyFor(base, quote);
    assert events == before + [e];
    if key in CacheAfter(before) && CacheAfter(events)[key] == CacheAfter(before)[key] {
      k := EntryWasMade(before, rows, base, quote);
    } else {
      WritesFound(before, e, key);
      KeysAreDistinct(base, quote, Resumed(before, e).base, Resumed(before, e).quote);
      k := e.asked;
    }
  }

  /**
   * Asked about the present on a clock that does not go back, over a table that does not change, and
   * however calls overlap, every answer is the plain lookup's at some instant less than a minute
   * before the call began.
   */
  lemma AnswersAreRecent(events: seq<Event>, e: Event, rows: seq<RateRow>) returns (t: Time)
    requires Current(events + [e], rows) && ReplyTo(events, e).Some?
    ensures var r := ReplyTo(events, e).value;
      && r.question.now - 60_000 < t <= r.question.now
      && r.answer == Lookup(rows, r.question.base, r.question.quote, t)
  {
    var all, q := events + [e], ReplyTo(events, e).value.question;
    assert all[|events|] == e && forall k :: 0 <= k < |events| ==> all[k] == events[k];
    if e.Ask? {
      var k := EntryWasMade(events, rows, q.base, q.quote);
      t := events[k].question.now;
      assert all[k].question.now <= all[|events|].question.now;
    } else {
      t := q.now;
      assert all[e.asked].question.asOf == all[e.asked].question.now;
    }
  }

  // ---------- When a cached rate ages ----------

  predicate Ages(before: Cache, after: Cache, key: string) {
    key in before && key in after && after[key].value.effectiveAt < before[key].value.effectiveAt
  }

  /**
   * A call was overtaken: it found a rate older than the one cached by now, but not older than the one
   * it captured before its query, if it captured any.
   */
  predicate Overtaken(cache: Cache, captured: Option<Entry>, rows: seq<RateRow>, q: Question) {
    var found := LookupFor(rows, q);
    && found.Success? && found.value.Some?
    && KeyOf(q) in cache && found.value.value.effectiveAt < cache[KeyOf(q)].value.effectiveAt
    && (captured.Some? ==> captured.value.value.effectiveAt <= found.value.value.effectiveAt)
  }

  /** In any history an event replaces a cached rate by an older one exactly when it resumes an overtaken call. */
  lemma AgesIff(events: seq<Event>, e: Event, key: string)
    ensures Ages(CacheAfter(events), CacheAfter(events + [e]), key) <==>
      && Resumes(events, e) && key == KeyOf(Resumed(events, e))
      && Overtaken(CacheAfter(events), CapturedBy(events, e), e.rows, Resumed(events, e))
  {
    OneMore(events, e);
  }

  /** The entry of the resumed call's pair is still the one it captured. */
  predicate Undisturbed(events: seq<Event>, e: Event) {
    Resumes(events, e) ==> Cached(CacheAfter(events), KeyOf(Resumed(events, e))) == CapturedBy(events, e)
  }

  predicate NeverDisturbed(events: seq<Event>, more: seq<Event>) {
    forall k :: 0 <= k < |more| ==> !more[k].Clear? && Undisturbed(events + more[..k], more[k])
  }

  lemma UndisturbedNeverAges(events: seq<Event>, e: Event, key: string)
    requires !e.Clear? && Undisturbed(events, e) && key in CacheAfter(events)
    ensures key in CacheAfter(events + [e])
    ensures CacheAfter(events)[key].value.effectiveAt <= CacheAfter(events + [e])[key].value.effectiveAt
  {
    OneMore(events, e);
    AgesIff(events, e, key);
  }

  lemma NeverDisturbedPrefix(events: seq<Event>, more: seq<Event>)
    requires more != [] && NeverDisturbed(events, more)
    ensures var n := |more| - 1;
      NeverDisturbed(events, more[..n]) && !more[n].Clear? && Undisturbed(events + more[..n], more[n])
  {
    hide Undisturbed;
    assert forall k :: 0 <= k < |more| - 1 ==> more[..|more| - 1][..k] == more[..k];
  }

  /** While no other call writes the pair between the halves of one, no cached rate is replaced by an older one. */
  lemma {:induction false} CachedNeverAges(events: seq<Event>, more: seq<Event>, key: string)
    requires key in CacheAfter(events) && NeverDisturbed(events, more)
    ensures key in CacheAfter(events + more)
    ensures CacheAfter(events)[key].value.effectiveAt <= CacheAfter(events + more)[key].value.effectiveAt
  {
    if more == [] {
      assert events + more == events;
    } else {
      hide CacheAfter, Undisturbed, NeverDisturbed;
      var n := |more| - 1;
      NeverDisturbedPrefix(events, more);
      CachedNeverAges(events, more[..n], key);
      UndisturbedNeverAges(events + more[..n], more[n], key);
      MoreEvents(events, more);
    }
  }

  lemma MoreEvents(events: seq<Event>, more: seq<Event>)
    requires more != []
    ensures events + more == events + more[..|more| - 1] + [more[|more| - 1]]
  {
  }

  /** Two calls about the present find the cache empty, the second after a new rate, and the first resumes last. */
  function Overlap(first: Question, second: Question, rows: seq<RateRow>): seq<Event> {
    [Ask(first), Ask(second), Resume(1, rows), Resume(0, rows)]
  }

  /**
   * Such an overlap ages the cache, whatever the rates: the newer rate was cached, the older replaces
   * it, and until the first call's minute is over it answers questions about the present.
   */
  lemma OverlapAges(older: RateRow, newer: RateRow, o: FxRate, n: FxRate, t: Time, u: Time, later: Time)
    requires older.base == newer.base && older.quote == newer.quote
    requires ReadFrom(o, older) && ReadFrom(n, newer)
    requires older.effectiveAt <= t < newer.effectiveAt <= u <= later < t + 60_000
    ensures var rows, key := [older, newer], KeyFor(older.base, older.quote);
      var events := Overlap(Question(older.base, older.quote, t, t), Question(older.base, older.quote, u, u), rows);
      && Current(events, rows)
      && Ages(CacheAfter(events[..3]), CacheAfter(events), key)
      && ReplyTo(events, Ask(Question(older.base, older.quote, later, later)))
         == Some(Reply(Question(older.base, older.quote, later, later), Success(Some(o))))
      && Newest(rows, older.base, older.quote, later) == Some(newer)
  {
    hide CacheAfter, Newest, ScaleRate;
    var rows, key := [older, newer], KeyFor(older.base, older.quote);
    var first, second := Question(older.base, older.quote, t, t), Question(older.base, older.quote, u, u);
    NewestOfTwo(older, newer, t);
    NewestOfTwo(older, newer, u);
    NewestOfTwo(older, newer, later);
    OverlapWrites(first, second, rows, o, n);
  }

  /** Resuming a call that found the cache empty writes what its query found. */
  lemma ResumeWrites(events: seq<Event>, e: Event, value: FxRate)
    requires e.Resume? && e.asked < |events| && events[e.asked].Ask? && CacheAfter(events[..e.asked]) == map[]
    requires LookupFor(e.rows, events[e.asked].question) == Success(Some(value))
    ensures var q := events[e.asked].question;
      CacheAfter(events + [e]) == CacheAfter(events)[KeyOf(q) := Entry(value, q.now + CACHE_TTL_MS)]
  {
    hide LookupFor, CacheAfter;
    OneMore(events, e);
    assert Resumes(events, e) && CapturedBy(events, e) == None;
  }

  lemma OverlapParts(first: Question, second: Question, rows: seq<RateRow>)
    ensures var events, asked := Overlap(first, second, rows), [Ask(first), Ask(second)];
      var three := asked + [Resume(1, rows)];
      && events[..3] == three && events == three + [Resume(0, rows)]
      && three[..0] == [] && three[0] == Ask(first) && asked[..1] == [Ask(first)] && asked[1] == Ask(second)
  {
  }

  /** Both calls of the overlap write what their own query found, the first one last. */
  lemma OverlapWrites(first: Question, second: Question, rows: seq<RateRow>, o: FxRate, n: FxRate)
    requires KeyOf(first) == KeyOf(second)
    requires LookupFor(rows, first) == Success(Some(o)) && LookupFor(rows, second) == Success(Some(n))
    ensures var events, key := Overlap(first, second, rows), KeyOf(first);
      && CacheAfter(events[..3]) == map[key := Entry(n, second.now + CACHE_TTL_MS)]
      && CacheAfter(events) == map[key := Entry(o, first.now + CACHE_TTL_MS)]
  {
    var asked := [Ask(first), Ask(second)];
    OverlapParts(first, second, rows);
    BothAsk(first, second);
    hide CacheAfter, LookupFor, Overlap, KeyOf;
    ResumeWrites(asked, Resume(1, rows), n);
    ResumeWrites(asked + [Resume(1, rows)], Resume(0, rows), o);
  }

  lemma BothAsk(first: Question, second: Question)
    ensures CacheAfter([]) == map[] && CacheAfter([Ask(first)]) == map[] && CacheAfter([Ask(first), Ask(second)]) == map[]
  {
    assert CacheAfter([]) == map[] && [Ask(first), Ask(second)] == [Ask(first)] + [Ask(second)];
    OneMore([], Ask(first));
    OneMore([Ask(first)], Ask(second));
    assert [] + [Ask(first)] == [Ask(first)];
  }

  lemma NewestOfTwo(older: RateRow, newer: RateRow, t: Time)
    requires older.base == newer.base && older.quote == newer.quote && older.effectiveAt <= t && older.effectiveAt < newer.effectiveAt
    ensures Newest([older, newer], older.base, older.quote, t) == Some(if newer.effectiveAt <= t then newer else older)
  {
    assert older in [older, newer] && newer in [older, newer];
  }

  /** A rate that a call cached answers the pair, whatever the table holds by then, exactly for a minute and back to its own time. */
  lemma FilledIsServedIff(cache: Cache, rows: seq<RateRow>, q: Question, value: FxRate, later: Question)
    requires Begin(cache, q) == Miss(None) && LookupFor(rows, q) == Success(Some(value))
    requires later.base == q.base && later.quote == q.quote
    ensures Begin(CachedLookup(cache, rows, q).0, later) ==
      if later.now < q.now + 60_000 && value.effectiveAt <= later.asOf then Hit(value)
      else Miss(Some(Entry(value, q.now + 60_000)))
  {
    hide LookupFor;
    assert KeyOf(later) == KeyOf(q);
  }

  // ---------- Backdated questions ----------

  /** The primary key of fx_rate. */
  predicate OnePerInstant(rows: seq<RateRow>) {
    forall i, j :: 0 <= i < j < |rows| ==>
      !(rows[i].base == rows[j].base && rows[i].quote == rows[j].quote && rows[i].effectiveAt == rows[j].effectiveAt)
  }

  predicate FixedTable(events: seq<Event>, rows: seq<RateRow>) {
    forall k :: 0 <= k < |events| && events[k].Resume? ==> events[k].rows == rows
  }

  /**
   * Over a table that does not change, and whatever times were asked about, an answer taken from the
   * cache is the plain lookup's exactly when no newer row of the pair is in effect at the asked time.
   */
  lemma CachedAnswerAgreesIff(events: seq<Event>, q: Question, rows: seq<RateRow>)
    requires FixedTable(events, rows) && OnePerInstant(rows) && Begin(CacheAfter(events), q).Hit?
    ensures Success(Some(Begin(CacheAfter(events), q).value)) == LookupFor(rows, q)
      <==> forall row :: row in rows && Quotes(row, q.base, q.quote, q.asOf) ==>
             row.effectiveAt <= Begin(CacheAfter(events), q).value.effectiveAt
  {
    var value := Begin(CacheAfter(events), q).value;
    CachedIsStored(events, q.base, q.quote);
    var k, row :| 0 <= k < |events| && events[k].Resume? && row in events[k].rows
      && row.base == q.base && row.quote == q.quote && ReadFrom(value, row);
    assert row in rows && Quotes(row, q.base, q.quote, q.asOf);
    var newest := Newest(rows, q.base, q.quote, q.asOf).value;
    if newest.effectiveAt == value.effectiveAt {
      var i :| 0 <= i < |rows| && rows[i] == row;
      var j :| 0 <= j < |rows| && rows[j] == newest;
      assert i == j;
    }
  }

  /** A backdated question that finds the cache empty leaves the older rate to answer the present for a minute. */
  lemma BackdatedFillIsServed(older: RateRow, newer: RateRow, value: FxRate, asOf: Time, filled: Time, now: Time)
    requires older.base == newer.base && older.quote == newer.quote && ReadFrom(value, older)
    requires older.effectiveAt <= asOf < newer.effectiveAt <= filled <= now < filled + 60_000
    ensures var rows := [older, newer];
      var cache := CachedLookup(map[], rows, Question(older.base, older.quote, asOf, filled)).0;
      && CachedLookup(cache, rows, Question(older.base, older.quote, now, now)).1 == Success(Some(value))
      && Newest(rows, older.base, older.quote, now) == Some(newer)
  {
    NewestOfTwo(older, newer, asOf);
    NewestOfTwo(older, newer, now);
  }
}
