/**
 * Properties of a whole run: what reaches the domain set, the order in which
 * failures are reported, and that scanning a file again against a healthy
 * store changes nothing (repeated urls are deduplicated).
 */
module PipelineProperties {
  import opened Options
  import opened FieldExtract
  import opened RedisModel
  import opened Pipeline

  /** The scan state a run starts from. */
  function Start(store: StoreView): ScanState {
    ScanState(map[], store)
  }

  /**
   * A run that gets past the bulk add leaves the domain set holding its old
   * members, every domain key found in the file, and "" when some line ended
   * in an error outcome; sets other than the domain set and `WaitingSql` are
   * untouched.
   */
  lemma RunDomainSet(lib: Libraries, lines: seq<string>, readFails: bool, domainKey: string, store: StoreView)
    requires domainKey != WaitingSqlKey
    requires Run(lib, Opened(lines, readFails), domainKey, store).err != Some(DomainAddFailed)
    ensures var scanned := ScanAll(lib, Start(store), lines);
      Run(lib, Opened(lines, readFails), domainKey, store).store.Members(domainKey) ==
        store.Members(domainKey) + DomainOutcomeKeys(scanned.results) +
        (if HasErrorOutcome(scanned.results) then {""} else {})
    ensures forall k :: k != domainKey && k != WaitingSqlKey ==>
      Run(lib, Opened(lines, readFails), domainKey, store).store.Members(k) == store.Members(k)
  {
    var scanned := ScanAll(lib, Start(store), lines);
    ScanKeepsWellKeyed(lib, Start(store), lines);
    ScanWritesOnlyWaitingSql(lib, Start(store), lines);
    FinishDomainSet(scanned, readFails, domainKey);
  }

  /**
   * Past the bulk add, the domain set gains the folded domains of well-keyed
   * outcomes, and no other set changes.
   */
  lemma FinishDomainSet(scanned: ScanState, readFails: bool, domainKey: string)
    requires WellKeyed(scanned.results)
    requires Finish(scanned, readFails, domainKey).err != Some(DomainAddFailed)
    ensures Finish(scanned, readFails, domainKey).store.Members(domainKey) ==
      scanned.store.Members(domainKey) + DomainOutcomeKeys(scanned.results) +
      (if HasErrorOutcome(scanned.results) then {""} else {})
    ensures forall k :: k != domainKey ==>
      Finish(scanned, readFails, domainKey).store.Members(k) == scanned.store.Members(k)
  {
    DomainsOfWellKeyed(scanned.results);
    if scanned.results == map[] {
      assert DomainOutcomeKeys(scanned.results) == {};
      assert !HasErrorOutcome(scanned.results);
    }
  }

  /**
   * The bulk add is issued exactly when the scan stored some outcome; its
   * failure is reported ahead of a read error; an unopenable file is reported
   * before anything is read or written.
   */
  lemma RunReportsInOrder(lib: Libraries, file: InputFile, domainKey: string, store: StoreView)
    ensures file.Unopenable? ==> Run(lib, file, domainKey, store) == RunOutcome(Some(OpenFailed), store)
    ensures file.Opened? ==>
      var scanned := ScanAll(lib, Start(store), file.lines);
      var out := Run(lib, file, domainKey, store);
      && out.store.faults == (if scanned.results != map[] then scanned.store.Consume().faults else scanned.store.faults)
      && (out.err == Some(DomainAddFailed) <==> scanned.results != map[] && scanned.store.NextFails())
      && (out.err == Some(ScanFailed) <==> file.readFails && out.err != Some(DomainAddFailed))
      && (out.err == None <==> !file.readFails && out.err != Some(DomainAddFailed))
  {
  }

  /** What one line does when the store accepts every write. */
  datatype Effect = Effect(updates: map<string, Result>, waiting: set<string>)

  /** The effect of a line, read off the line alone. */
  function LineEffect(lib: Libraries, line: string): Effect {
    if !Contains(line, CandidateMarker) then Effect(map[], {})
    else match FindUrl(line)
      case None => Effect(map[], {})
      case Some(u) => UrlEffect(lib, u)
  }

  /** The effect of a captured url, read off the url alone. */
  function UrlEffect(lib: Libraries, u: string): Effect {
    var parsed := lib.parse(u);
    if !parsed.ok then Effect(map[u := Result("", Some(ParseFailed(u)))], {})
    else
      var key := DomainKey(lib.extract(u));
      Effect(if key == "" then map[] else map[key := Result(key, None)],
             if parsed.rawQuery != "" then {parsed.str} else {})
  }

  /** `e1` followed by `e2`: later stores overwrite earlier ones, set additions accumulate. */
  function Then(e1: Effect, e2: Effect): Effect {
    Effect(e1.updates + e2.updates, e1.waiting + e2.waiting)
  }

  function ScanEffect(lib: Libraries, lines: seq<string>): Effect
    decreases |lines|
  {
    if lines == [] then Effect(map[], {})
    else Then(ScanEffect(lib, lines[..|lines| - 1]), LineEffect(lib, lines[|lines| - 1]))
  }

  function Apply(s: ScanState, e: Effect): ScanState {
    ScanState(s.results + e.updates, s.store.Insert(WaitingSqlKey, e.waiting))
  }

  /** Against a store with no pending faults a captured url has exactly its effect. */
  lemma HealthyProcessUrl(lib: Libraries, s: ScanState, u: string)
    requires s.store.faults == []
    ensures ProcessUrl(lib, s, u) == Apply(s, UrlEffect(lib, u))
  {
    var parsed := lib.parse(u);
    if !parsed.ok {
      assert s.results[u := Result("", Some(ParseFailed(u)))] == s.results + map[u := Result("", Some(ParseFailed(u)))];
    } else {
      if parsed.rawQuery != "" {
        assert s.store.SAdd(WaitingSqlKey, {parsed.str}) == AddReply(true, s.store.Insert(WaitingSqlKey, {parsed.str}));
      }
      var key := DomainKey(lib.extract(u));
      if key != "" {
        assert s.results[key := Result(key, None)] == s.results + map[key := Result(key, None)];
      } else {
        assert s.results == s.results + map[];
      }
    }
  }

  /** Against a store with no pending faults a line has exactly its effect. */
  lemma HealthyStep(lib: Libraries, s: ScanState, line: string)
    requires s.store.faults == []
    ensures Step(lib, s, line) == Apply(s, LineEffect(lib, line))
  {
    if Contains(line, CandidateMarker) && FindUrl(line).Some? {
      HealthyProcessUrl(lib, s, FindUrl(line).value);
    } else {
      assert s.results == s.results + map[];
    }
  }

  /** Applying two effects in turn is applying their sequence. */
  lemma ApplyThen(s: ScanState, e1: Effect, e2: Effect)
    ensures Apply(Apply(s, e1), e2) == Apply(s, Then(e1, e2))
  {
    assert (s.results + e1.updates) + e2.updates == s.results + (e1.updates + e2.updates);
    s.store.InsertTwice(WaitingSqlKey, e1.waiting, e2.waiting);
  }

  /** Against a store with no pending faults the scan has exactly the sequenced effects of its lines. */
  lemma {:induction false} HealthyScan(lib: Libraries, s: ScanState, lines: seq<string>)
    requires s.store.faults == []
    ensures ScanAll(lib, s, lines) == Apply(s, ScanEffect(lib, lines))
    decreases |lines|
  {
    if lines == [] {
      assert s.results + map[] == s.results;
    } else {
      var init := lines[..|lines| - 1];
      HealthyScan(lib, s, init);
      HealthyStep(lib, ScanAll(lib, s, init), lines[|lines| - 1]);
      ApplyThen(s, ScanEffect(lib, init), LineEffect(lib, lines[|lines| - 1]));
    }
  }

  /** An effect followed by itself is itself. */
  lemma ThenIdempotent(e: Effect)
    ensures Then(e, e) == e
  {
  }

  /**
   * Against a store with no pending faults, scanning the same lines a second
   * time changes neither the result map nor Redis.
   */
  lemma RescanIsIdempotent(lib: Libraries, s: ScanState, lines: seq<string>)
    requires s.store.faults == []
    ensures ScanAll(lib, ScanAll(lib, s, lines), lines) == ScanAll(lib, s, lines)
  {
    var e := ScanEffect(lib, lines);
    HealthyScan(lib, s, lines);
    HealthyScan(lib, Apply(s, e), lines);
    ApplyThen(s, e, e);
    ThenIdempotent(e);
  }

  /**
   * Two runs over the same file, each starting from an empty result map,
   * against a store with no pending faults: the second run returns what the
   * first returned and leaves every set as the first run left it.
   */
  lemma RerunKeepsSets(lib: Libraries, lines: seq<string>, readFails: bool, domainKey: string, store: StoreView)
    requires store.faults == []
    ensures var first := Run(lib, Opened(lines, readFails), domainKey, store);
      var second := Run(lib, Opened(lines, readFails), domainKey, first.store);
      second.err == first.err && forall k :: second.store.Members(k) == first.store.Members(k)
  {
    var e := ScanEffect(lib, lines);
    assert map[] + e.updates == e.updates;
    var s1 := ScanAll(lib, Start(store), lines);
    HealthyScan(lib, Start(store), lines);
    assert s1 == ScanState(e.updates, store.Insert(WaitingSqlKey, e.waiting));
    var first := Run(lib, Opened(lines, readFails), domainKey, store);
    assert first == Finish(s1, readFails, domainKey);
    FinishTwice(e.updates, store, e.waiting, readFails, domainKey);
    var s2 := ScanAll(lib, Start(first.store), lines);
    HealthyScan(lib, Start(first.store), lines);
    assert s2 == ScanState(e.updates, first.store.Insert(WaitingSqlKey, e.waiting));
    var second := Run(lib, Opened(lines, readFails), domainKey, first.store);
    assert second == Finish(s2, readFails, domainKey);
  }

  /** The post-scan part of two healthy runs that scanned the same effect. */
  lemma FinishTwice(results: map<string, Result>, store: StoreView, waiting: set<string>, readFails: bool, domainKey: string)
    requires store.faults == []
    ensures var first := Finish(ScanState(results, store.Insert(WaitingSqlKey, waiting)), readFails, domainKey);
      var second := Finish(ScanState(results, first.store.Insert(WaitingSqlKey, waiting)), readFails, domainKey);
      first.store.faults == [] && second.err == first.err && forall k :: second.store.Members(k) == first.store.Members(k)
  {
    var first := Finish(ScanState(results, store.Insert(WaitingSqlKey, waiting)), readFails, domainKey);
    var again := first.store.Insert(WaitingSqlKey, waiting);
    assert waiting <= first.store.Members(WaitingSqlKey);
    assert forall k :: again.Members(k) == first.store.Members(k);
    if results != map[] {
      assert DomainsOf(results) <= first.store.Members(domainKey);
    }
  }

  /** Against a store with no pending faults, a line repeated directly changes nothing the second time. */
  lemma RepeatedLineIsNoOp(lib: Libraries, s: ScanState, line: string)
    requires s.store.faults == []
    ensures Step(lib, Step(lib, s, line), line) == Step(lib, s, line)
  {
  }
}
