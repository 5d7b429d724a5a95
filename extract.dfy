/**
 * The URL field extractor of the crawl-index reader: the cheap `id` pre-filter
 * (a substring test) and the capture of the leftmost `"url": "<value>"` field
 * with the pattern `"url": "([^"]+)"`.
 */
module FieldExtract {
  import opened Options

  /** A line is a candidate record only if this text occurs in it. */
  const CandidateMarker: string := "id"

  /** The literal text that opens the url field: `"url": "`. */
  const UrlFieldOpen: string := "\"url\": \""

  const Quote: char := '"'

  /** `t` occurs in `s` starting at index `i`. */
  ghost predicate OccursAt(s: string, t: string, i: int) {
    0 <= i && i + |t| <= |s| && s[i..i + |t|] == t
  }

  /** Substring search from position `i` on. */
  function ContainsFrom(s: string, t: string, i: nat): (b: bool)
    requires i <= |s|
    ensures b <==> exists j :: i <= j && OccursAt(s, t, j)
    decreases |s| - i
  {
    if i + |t| > |s| then false
    else if s[i..i + |t|] == t then
      assert OccursAt(s, t, i);
      true
    else
      assert t != [];
      ContainsFrom(s, t, i + 1)
  }

  /** Go's strings.Contains: `t` occurs somewhere in `s`. */
  function Contains(s: string, t: string): (b: bool)
    ensures b <==> exists j :: OccursAt(s, t, j)
  {
    ContainsFrom(s, t, 0)
  }

  /**
   * The reference meaning of one match of `"url": "([^"]+)"` at index `i` with
   * capture `v`: the opening text sits at `i`, `v` follows it directly, is
   * non-empty and holds no quote, and a quote follows `v` directly.
   */
  ghost predicate FieldAt(line: string, i: int, v: string) {
    && OccursAt(line, UrlFieldOpen, i)
    && v != []
    && Quote !in v
    && OccursAt(line, v, i + |UrlFieldOpen|)
    && i + |UrlFieldOpen| + |v| < |line|
    && line[i + |UrlFieldOpen| + |v|] == Quote
  }

  /** No match of the pattern starts before index `i`. */
  ghost predicate NoFieldBefore(line: string, i: int) {
    forall j, w :: 0 <= j < i ==> !FieldAt(line, j, w)
  }

  /** End of the run of quote-free characters that starts at `j`: the greedy `[^"]+`. */
  function QuoteFreeRunEnd(s: string, j: nat): (k: nat)
    requires j <= |s|
    ensures j <= k <= |s|
    ensures forall m :: j <= m < k ==> s[m] != Quote
    ensures k < |s| ==> s[k] == Quote
    decreases |s| - j
  {
    if j == |s| || s[j] == Quote then j else QuoteFreeRunEnd(s, j + 1)
  }

  /** The capture of the pattern anchored at index `i`, if the pattern matches there. */
  function MatchAt(line: string, i: nat): (r: Option<string>)
    requires i <= |line|
    ensures forall v :: FieldAt(line, i, v) <==> r == Some(v)
  {
    var start := i + |UrlFieldOpen|;
    if start <= |line| && line[i..start] == UrlFieldOpen then
      var k := QuoteFreeRunEnd(line, start);
      if start < k < |line| then
        var v := line[start..k];
        assert FieldAt(line, i, v) by {
          assert forall m :: 0 <= m < |v| ==> v[m] == line[start + m];
        }
        assert forall w :: FieldAt(line, i, w) ==> w == v by {
          forall w | FieldAt(line, i, w) ensures w == v {
            RunEndIsFieldEnd(line, start, w, k);
          }
        }
        Some(v)
      else
        assert forall w :: !FieldAt(line, i, w) by {
          forall w | FieldAt(line, i, w) ensures false {
            RunEndIsFieldEnd(line, start, w, k);
          }
        }
        None
    else None
  }

  /** A quote-free value followed by a quote ends exactly where the quote-free run ends. */
  lemma RunEndIsFieldEnd(line: string, start: nat, w: string, k: nat)
    requires start <= |line| && k == QuoteFreeRunEnd(line, start)
    requires Quote !in w && OccursAt(line, w, start)
    requires start + |w| < |line| && line[start + |w|] == Quote
    ensures k == start + |w| && line[start..k] == w
  {
  }

  /** The leftmost match at or after index `i`. */
  function FindFrom(line: string, i: nat): (r: Option<string>)
    requires i <= |line|
    ensures r.Some? ==> exists j :: i <= j && FieldAt(line, j, r.value) && forall j', w :: i <= j' < j ==> !FieldAt(line, j', w)
    ensures r.None? ==> forall j, w :: i <= j ==> !FieldAt(line, j, w)
    decreases |line| - i
  {
    if i == |line| then None
    else match MatchAt(line, i)
      case Some(v) => Some(v)
      case None => FindFrom(line, i + 1)
  }

  /** Go's FindStringSubmatch(line)[1] for the url pattern, or None when it finds no match. */
  function FindUrl(line: string): (r: Option<string>)
    ensures r.Some? ==> exists i :: FieldAt(line, i, r.value) && NoFieldBefore(line, i)
    ensures r.None? ==> forall i, w :: !FieldAt(line, i, w)
  {
    FindFrom(line, 0)
  }

  /** At a given position the pattern has at most one capture. */
  lemma FieldAtUnique(line: string, i: int, v: string, w: string)
    requires FieldAt(line, i, v) && FieldAt(line, i, w)
    ensures v == w
  {
  }

  /** FindUrl returns `v` exactly when `v` is the capture of the leftmost match. */
  lemma FindUrlIsLeftmostField(line: string, v: string)
    ensures FindUrl(line) == Some(v) <==> exists i :: FieldAt(line, i, v) && NoFieldBefore(line, i)
  {
  }

  /**
   * A line in which every opening `"url": "` is directly followed by a quote or
   * by the end of the line (an empty field such as `"url": ""`) yields no capture.
   */
  lemma EmptyFieldsNotCaptured(line: string)
    requires forall i :: OccursAt(line, UrlFieldOpen, i) ==>
               i + |UrlFieldOpen| == |line| || line[i + |UrlFieldOpen|] == Quote
    ensures FindUrl(line) == None
  {
  }
}
