/**
 * The per-line fold of saveDomainsToRedis and the run around it: each candidate
 * line's url is parsed, a query-bearing url is added to the `WaitingSql` set, and
 * an outcome is stored in a result map under the domain key (or, on failure,
 * under the raw url); afterwards the map is folded into a `domains` list that is
 * added to the domain set in one SADD.
 */
module Pipeline {
  import opened Options
  import opened FieldExtract
  import opened RedisModel

  /** What the pipeline reads of url.Parse: success, the raw query and String(). */
  datatype ParsedUrl = ParsedUrl(ok: bool, rawQuery: string, str: string)

  /** What the pipeline reads of fasttld's Extract with subdomains ignored. */
  datatype TldParts = TldParts(scheme: string, registeredDomain: string)

  /** The two foreign libraries, as total functions of the url text. */
  datatype Libraries = Libraries(parse: string -> ParsedUrl, extract: string -> TldParts)

  /** The side set that receives urls with a query. */
  const WaitingSqlKey: string := "WaitingSql"

  datatype LineError = ParseFailed(url: string) | WaitingSqlFailed(url: string)

  /** The `result` record stored per key: a domain, or an error and an empty domain. */
  datatype Result = Result(domain: string, err: Option<LineError>)

  /** The domain key: the scheme directly followed by the registered domain. */
  function DomainKey(t: TldParts): (key: string)
    ensures |key| == |t.scheme| + |t.registeredDomain|
    ensures key[..|t.scheme|] == t.scheme && key[|t.scheme|..] == t.registeredDomain
    ensures key == "" <==> t.scheme == "" && t.registeredDomain == ""
  {
    t.scheme + t.registeredDomain
  }

  /**
   * Every stored outcome sits under the right key: a domain outcome under its
   * own non-empty domain, an error outcome (under the raw url) with no domain.
   */
  ghost predicate WellKeyed(results: map<string, Result>) {
    forall k :: k in results ==>
      if results[k].err.None? then results[k].domain == k && k != "" else results[k].domain == ""
  }

  /** The result map and the Redis store while the lines are scanned. */
  datatype ScanState = ScanState(results: map<string, Result>, store: StoreView)

  /** Handling of the url `u` captured from a candidate line. */
  function ProcessUrl(lib: Libraries, s: ScanState, u: string): (r: ScanState)
    ensures forall k :: k != u && k != DomainKey(lib.extract(u)) ==>
      (k in r.results <==> k in s.results) && (k in s.results ==> r.results[k] == s.results[k])
    ensures forall k :: k != WaitingSqlKey ==> r.store.Members(k) == s.store.Members(k)
    ensures s.store.Members(WaitingSqlKey) <= r.store.Members(WaitingSqlKey) <= s.store.Members(WaitingSqlKey) + {lib.parse(u).str}
  {
    var parsed := lib.parse(u);
    var tld := lib.extract(u);
    if !parsed.ok then
      s.(results := s.results[u := Result("", Some(ParseFailed(u)))])
    else
      var reply :=
        if parsed.rawQuery != "" then s.store.SAdd(WaitingSqlKey, {parsed.str})
        else AddReply(true, s.store);
      if !reply.ok then
        ScanState(s.results[u := Result("", Some(WaitingSqlFailed(u)))], reply.store)
      else
        var key := DomainKey(tld);
        if key == "" then ScanState(s.results, reply.store)
        else ScanState(s.results[key := Result(key, None)], reply.store)
  }

  /** One line of the scan. */
  function Step(lib: Libraries, s: ScanState, line: string): (r: ScanState)
    ensures |r.results| <= |s.results| + 1
    ensures forall k :: k != WaitingSqlKey ==> r.store.Members(k) == s.store.Members(k)
    ensures s.store.Members(WaitingSqlKey) <= r.store.Members(WaitingSqlKey)
  {
    if !Contains(line, CandidateMarker) then s
    else match FindUrl(line)
      case None => s
      case Some(u) => ProcessUrl(lib, s, u)
  }

  /** The scan of `lines`, in file order. */
  function ScanAll(lib: Libraries, s: ScanState, lines: seq<string>): (r: ScanState)
    ensures |r.results| <= |s.results| + |lines|
    decreases |lines|
  {
    if lines == [] then s
    else Step(lib, ScanAll(lib, s, lines[..|lines| - 1]), lines[|lines| - 1])
  }

  /** A line that is not a candidate, or has no url match, changes nothing. */
  lemma SkippedLineIsNoOp(lib: Libraries, s: ScanState, line: string)
    requires !Contains(line, CandidateMarker) || FindUrl(line).None?
    ensures Step(lib, s, line) == s
  {
  }

  /**
   * A url that does not parse stores one error outcome under the raw url and
   * makes no write to Redis.
   */
  lemma ParseFailureStoresError(lib: Libraries, s: ScanState, line: string, u: string)
    requires Contains(line, CandidateMarker) && FindUrl(line) == Some(u)
    requires !lib.parse(u).ok
    ensures Step(lib, s, line).results == s.results[u := Result("", Some(ParseFailed(u)))]
    ensures Step(lib, s, line).store == s.store
  {
  }

  /**
   * A query-bearing url is first added to `WaitingSql`; when that SADD fails,
   * an error outcome is stored under the raw url, no domain outcome is stored
   * and no set changes.
   */
  lemma WaitingSqlFailureStoresError(lib: Libraries, s: ScanState, line: string, u: string)
    requires Contains(line, CandidateMarker) && FindUrl(line) == Some(u)
    requires lib.parse(u).ok && lib.parse(u).rawQuery != "" && s.store.NextFails()
    ensures Step(lib, s, line).results == s.results[u := Result("", Some(WaitingSqlFailed(u)))]
    ensures Step(lib, s, line).store.sets == s.store.sets
  {
  }

  /**
   * A url that parses, and whose query (if any) reached `WaitingSql`, stores a
   * domain outcome under its domain key, or nothing when that key is empty.
   */
  lemma AcceptedUrlStoresDomain(lib: Libraries, s: ScanState, line: string, u: string)
    requires Contains(line, CandidateMarker) && FindUrl(line) == Some(u)
    requires lib.parse(u).ok && (lib.parse(u).rawQuery == "" || !s.store.NextFails())
    ensures var key := DomainKey(lib.extract(u));
      Step(lib, s, line).results == if key == "" then s.results else s.results[key := Result(key, None)]
    ensures lib.parse(u).rawQuery != "" ==>
      Step(lib, s, line).store.Members(WaitingSqlKey) == s.store.Members(WaitingSqlKey) + {lib.parse(u).str}
    ensures lib.parse(u).rawQuery == "" ==> Step(lib, s, line).store == s.store
    ensures forall k :: k != WaitingSqlKey ==> Step(lib, s, line).store.Members(k) == s.store.Members(k)
  {
  }

  /** Every line keeps the outcomes well keyed. */
  lemma StepKeepsWellKeyed(lib: Libraries, s: ScanState, line: string)
    requires WellKeyed(s.results)
    ensures WellKeyed(Step(lib, s, line).results)
  {
  }

  /** The scan keeps the outcomes well keyed. */
  lemma {:induction false} ScanKeepsWellKeyed(lib: Libraries, s: ScanState, lines: seq<string>)
    requires WellKeyed(s.results)
    ensures WellKeyed(ScanAll(lib, s, lines).results)
    decreases |lines|
  {
    if lines != [] {
      ScanKeepsWellKeyed(lib, s, lines[..|lines| - 1]);
      StepKeepsWellKeyed(lib, ScanAll(lib, s, lines[..|lines| - 1]), lines[|lines| - 1]);
    }
  }

  /**
   * While scanning, Redis is written only through `WaitingSql`, which only
   * grows: the domain set is left for the bulk add after the scan.
   */
  lemma {:induction false} ScanWritesOnlyWaitingSql(lib: Libraries, s: ScanState, lines: seq<string>)
    ensures forall k :: k != WaitingSqlKey ==> ScanAll(lib, s, lines).store.Members(k) == s.store.Members(k)
    ensures s.store.Members(WaitingSqlKey) <= ScanAll(lib, s, lines).store.Members(WaitingSqlKey)
    decreases |lines|
  {
    if lines != [] {
      ScanWritesOnlyWaitingSql(lib, s, lines[..|lines| - 1]);
    }
  }

  /** The scanning loop: reads the lines in order and folds them into a result map. */
  method ScanLines(lib: Libraries, lines: seq<string>, client: RedisClient) returns (results: map<string, Result>)
    modifies client
    ensures ScanState(results, client.View()) == ScanAll(lib, ScanState(map[], old(client.View())), lines)
  {
    ghost var start := ScanState(map[], client.View());
    results := map[];
    var i := 0;
    while i < |lines|
      invariant 0 <= i <= |lines|
      invariant ScanState(results, client.View()) == ScanAll(lib, start, lines[..i])
    {
      var line := lines[i];
      assert lines[..i + 1][..i] == lines[..i];
      ghost var before := ScanState(results, client.View());
      if Contains(line, CandidateMarker) {
        var m := FindUrl(line);
        if m.Some? {
          var u := m.value;
          var parsed := lib.parse(u);
          var tld := lib.extract(u);
          if !parsed.ok {
            results := results[u := Result("", Some(ParseFailed(u)))];
          } else {
            var ok := true;
            if parsed.rawQuery != "" {
              assert MemberSet([parsed.str]) == {parsed.str};
              ok := client.SAdd(WaitingSqlKey, [parsed.str]);
            }
            if !ok {
              results := results[u := Result("", Some(WaitingSqlFailed(u)))];
            } else {
              var key := DomainKey(tld);
              if key != "" {
                results := results[key := Result(key, None)];
              }
            }
          }
        }
      }
      assert ScanState(results, client.View()) == Step(lib, before, line);
      i := i + 1;
    }
    assert lines[..i] == lines;
  }

  /** The set of `domain` fields of the stored outcomes. */
  function DomainsOf(results: map<string, Result>): (r: set<string>)
    ensures forall k :: k in results ==> results[k].domain in r
    ensures forall d :: d in r ==> exists k :: k in results && results[k].domain == d
    ensures results != map[] ==> r != {}
  {
    set k | k in results :: results[k].domain
  }

  /** The keys holding a domain outcome. */
  ghost function DomainOutcomeKeys(results: map<string, Result>): set<string> {
    set k | k in results && results[k].err.None?
  }

  /** An error outcome is present. */
  ghost predicate HasErrorOutcome(results: map<string, Result>) {
    exists k :: k in results && results[k].err.Some?
  }

  /**
   * Of well-keyed outcomes, the domains are the keys of the domain outcomes,
   * plus the empty string exactly when some error outcome is present.
   */
  lemma DomainsOfWellKeyed(results: map<string, Result>)
    requires WellKeyed(results)
    ensures DomainsOf(results) == DomainOutcomeKeys(results) + (if HasErrorOutcome(results) then {""} else {})
  {
  }

  /** The keys in `order` are pairwise distinct. */
  ghost predicate Distinct(order: seq<string>) {
    forall i, j :: 0 <= i < j < |order| ==> order[i] != order[j]
  }

  /**
   * The fold over the result map (sync.Map's Range, in no particular order).
   * `outerErr` is the captured `err` of the enclosing function, which the fold
   * tests instead of each outcome's own error: when it is clear every outcome's
   * `domain` field is appended, so an error outcome contributes "".
   */
  method CollectDomains(results: map<string, Result>, outerErr: bool) returns (domains: seq<string>, ghost order: seq<string>)
    ensures Distinct(order) && |order| == |results|
    ensures forall k :: k in order <==> k in results
    ensures outerErr ==> domains == []
    ensures !outerErr ==> |domains| == |order| && forall i :: 0 <= i < |order| ==> domains[i] == results[order[i]].domain
    ensures !outerErr ==> MemberSet(domains) == DomainsOf(results)
    ensures WellKeyed(results) ==> forall i, j :: 0 <= i < j < |domains| && domains[i] != "" ==> domains[i] != domains[j]
  {
    domains, order := [], [];
    var pending := results.Keys;
    while pending != {}
      invariant pending <= results.Keys
      invariant forall k :: k in order <==> k in results && k !in pending
      invariant Distinct(order)
      invariant |order| + |pending| == |results|
      invariant outerErr ==> domains == []
      invariant !outerErr ==> |domains| == |order| && forall i :: 0 <= i < |order| ==> domains[i] == results[order[i]].domain
      decreases pending
    {
      var k :| k in pending;
      var res := results[k];
      if !outerErr {
        domains := domains + [res.domain];
      }
      order := order + [k];
      pending := pending - {k};
    }
    if !outerErr {
      FoldCoversDomains(results, order, domains);
    }
    if WellKeyed(results) {
      FoldDomainsDistinct(results, order, domains);
    }
  }

  /** A fold that visits every key once appends exactly the domains of the outcomes. */
  lemma FoldCoversDomains(results: map<string, Result>, order: seq<string>, domains: seq<string>)
    requires forall k :: k in order <==> k in results
    requires |domains| == |order| && forall i :: 0 <= i < |order| ==> domains[i] == results[order[i]].domain
    ensures MemberSet(domains) == DomainsOf(results)
  {
  }

  /**
   * Folding well-keyed outcomes over distinct keys appends every non-empty
   * domain once: the non-empty entries are pairwise distinct.
   */
  lemma FoldDomainsDistinct(results: map<string, Result>, order: seq<string>, domains: seq<string>)
    requires WellKeyed(results) && Distinct(order)
    requires forall k :: k in order ==> k in results
    requires |domains| <= |order| && forall i :: 0 <= i < |domains| ==> domains[i] == results[order[i]].domain
    ensures forall i, j :: 0 <= i < j < |domains| && domains[i] != "" ==> domains[i] != domains[j]
  {
  }

  /** The input file: either it cannot be opened, or its lines and whether reading stopped on an error. */
  datatype InputFile = Unopenable | Opened(lines: seq<string>, readFails: bool)

  datatype RunError = OpenFailed | DomainAddFailed | ScanFailed

  /** What a run returns, and the Redis store after it. */
  datatype RunOutcome = RunOutcome(err: Option<RunError>, store: StoreView)

  /** The reference meaning of saveDomainsToRedis. */
  function Run(lib: Libraries, file: InputFile, domainKey: string, store: StoreView): (r: RunOutcome)
    ensures r.err == Some(OpenFailed) <==> file.Unopenable?
    ensures file.Unopenable? ==> r.store == store
  {
    match file
    case Unopenable => RunOutcome(Some(OpenFailed), store)
    case Opened(lines, readFails) => Finish(ScanAll(lib, ScanState(map[], store), lines), readFails, domainKey)
  }

  /** What follows the scan: the fold, the bulk add when there is something to add, the read-error check. */
  function Finish(scanned: ScanState, readFails: bool, domainKey: string): (r: RunOutcome)
    ensures r.err != Some(OpenFailed)
  {
    var scanErr := if readFails then Some(ScanFailed) else None;
    if scanned.results == map[] then RunOutcome(scanErr, scanned.store)
    else
      var reply := scanned.store.SAdd(domainKey, DomainsOf(scanned.results));
      if reply.ok then RunOutcome(scanErr, reply.store) else RunOutcome(Some(DomainAddFailed), reply.store)
  }

  /** saveDomainsToRedis, run sequentially over the lines of the file. */
  method SaveDomainsToRedis(lib: Libraries, file: InputFile, domainKey: string, client: RedisClient)
    returns (err: Option<RunError>)
    modifies client
    ensures RunOutcome(err, client.View()) == Run(lib, file, domainKey, old(client.View()))
  {
    var openErr := file.Unopenable?;
    if openErr {
      return Some(OpenFailed);
    }
    var results := ScanLines(lib, file.lines, client);
    var domains, order := CollectDomains(results, openErr);
    if |domains| > 0 {
      var ok := client.SAdd(domainKey, domains);
      if !ok {
        return Some(DomainAddFailed);
      }
    }
    if file.readFails {
      return Some(ScanFailed);
    }
    return None;
  }
}
