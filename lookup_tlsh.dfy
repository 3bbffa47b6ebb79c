/**
 * TLSH similarity search: every stored hash within the maximum distance of
 * the input hash is collected, the matches are sorted by distance (stably)
 * and the report shows at most twenty of them, coloured by distance.
 */
module LookupTlsh {
  import opened Wrappers
  import Text

  /** A stored record: its (hash, sample SHA-256) entries, `_id` included. */
  type TlshRecord = seq<(string, string)>

  /** `tlsh.diff`: the distance of two hashes, or None when it raises ValueError. */
  type Diff = (string, string) -> Option<int>

  const IdKey := "_id"
  const DefaultMaxDistance := 50
  const PrintCap := 20

  /** One similar hash. */
  datatype Similar = Similar(tlsh: string, sha256: string, distance: int)

  /** The match one record entry contributes, if any. */
  function Candidate(input: string, entry: (string, string), maxDistance: int, diff: Diff): seq<Similar> {
    var (dbTlsh, dbSha256) := entry;
    if dbTlsh == IdKey then []
    else match diff(input, dbTlsh)
      case None => []
      case Some(distance) => if distance <= maxDistance then [Similar(dbTlsh, dbSha256, distance)] else []
  }

  /** The matches of one record's entries, in entry order. */
  function RecordMatches(input: string, entries: TlshRecord, maxDistance: int, diff: Diff): seq<Similar> {
    if entries == [] then []
    else RecordMatches(input, entries[..|entries| - 1], maxDistance, diff) + Candidate(input, entries[|entries| - 1], maxDistance, diff)
  }

  /** The matches of all records, in cursor order, before sorting. */
  function Matches(input: string, records: seq<TlshRecord>, maxDistance: int, diff: Diff): seq<Similar> {
    if records == [] then []
    else Matches(input, records[..|records| - 1], maxDistance, diff) + RecordMatches(input, records[|records| - 1], maxDistance, diff)
  }

  /**
   * An entry contributes a match exactly when its key is not `_id`, the
   * distance can be computed and it is at most the maximum; the match
   * carries the entry's hash and SHA-256 and that distance.
   */
  lemma CandidateSpec(input: string, entry: (string, string), maxDistance: int, diff: Diff)
    ensures Candidate(input, entry, maxDistance, diff) != [] <==>
              entry.0 != IdKey && diff(input, entry.0).Some? && diff(input, entry.0).value <= maxDistance
    ensures forall s | s in Candidate(input, entry, maxDistance, diff) ::
              s == Similar(entry.0, entry.1, diff(input, entry.0).value)
  {
  }

  lemma {:induction false} RecordMatchesSpec(input: string, entries: TlshRecord, maxDistance: int, diff: Diff)
    ensures forall s :: s in RecordMatches(input, entries, maxDistance, diff) <==>
              exists j | 0 <= j < |entries| :: s in Candidate(input, entries[j], maxDistance, diff)
  {
    if entries != [] {
      var n := |entries| - 1;
      RecordMatchesSpec(input, entries[..n], maxDistance, diff);
      assert forall j | 0 <= j < n :: entries[..n][j] == entries[j];
    }
  }

  /** A match comes from some entry of some record, and every entry's match is kept. */
  lemma {:induction false} MatchesSpec(input: string, records: seq<TlshRecord>, maxDistance: int, diff: Diff)
    ensures forall s :: s in Matches(input, records, maxDistance, diff) <==>
              exists i, j | 0 <= i < |records| && 0 <= j < |records[i]| :: s in Candidate(input, records[i][j], maxDistance, diff)
  {
    if records != [] {
      var n := |records| - 1;
      MatchesSpec(input, records[..n], maxDistance, diff);
      RecordMatchesSpec(input, records[n], maxDistance, diff);
      assert Matches(input, records, maxDistance, diff) == Matches(input, records[..n], maxDistance, diff) + RecordMatches(input, records[n], maxDistance, diff);
      forall i | 0 <= i < n
        ensures records[..n][i] == records[i]
      {
      }
    }
  }

  // Sorting by distance

  predicate Sorted(xs: seq<Similar>) {
    forall i, j | 0 <= i < j < |xs| :: xs[i].distance <= xs[j].distance
  }

  /** Inserts after every element that is not farther, which keeps equal distances in arrival order. */
  function Insert(x: Similar, xs: seq<Similar>): seq<Similar> {
    if xs == [] then [x]
    else if x.distance < xs[0].distance then [x] + xs
    else [xs[0]] + Insert(x, xs[1..])
  }

  /** `list.sort(key=distance)`, a stable sort, as an insertion sort. */
  function SortByDistance(xs: seq<Similar>): seq<Similar> {
    if xs == [] then [] else Insert(xs[|xs| - 1], SortByDistance(xs[..|xs| - 1]))
  }

  /** The elements at one distance, in order. */
  function AtDistance(xs: seq<Similar>, d: int): seq<Similar> {
    if xs == [] then [] else (if xs[0].distance == d then [xs[0]] else []) + AtDistance(xs[1..], d)
  }

  lemma {:induction false} AtDistanceAppend(xs: seq<Similar>, ys: seq<Similar>, d: int)
    ensures AtDistance(xs + ys, d) == AtDistance(xs, d) + AtDistance(ys, d)
  {
    if xs == [] {
      assert xs + ys == ys;
    } else {
      assert (xs + ys)[0] == xs[0];
      assert (xs + ys)[1..] == xs[1..] + ys;
      AtDistanceAppend(xs[1..], ys, d);
      var h := if xs[0].distance == d then [xs[0]] else [];
      assert h + (AtDistance(xs[1..], d) + AtDistance(ys, d)) == (h + AtDistance(xs[1..], d)) + AtDistance(ys, d);
    }
  }

  lemma {:induction false} AtDistanceFarther(xs: seq<Similar>, d: int)
    requires forall i | 0 <= i < |xs| :: xs[i].distance > d
    ensures AtDistance(xs, d) == []
  {
    if xs != [] {
      AtDistanceFarther(xs[1..], d);
    }
  }

  lemma {:induction false} InsertElements(x: Similar, xs: seq<Similar>)
    ensures multiset(Insert(x, xs)) == multiset(xs) + multiset{x}
  {
    if xs != [] && x.distance >= xs[0].distance {
      InsertElements(x, xs[1..]);
      assert xs == [xs[0]] + xs[1..];
    }
  }

  lemma {:induction false} InsertSorted(x: Similar, xs: seq<Similar>)
    requires Sorted(xs)
    ensures Sorted(Insert(x, xs))
  {
    if xs != [] && x.distance >= xs[0].distance {
      InsertSorted(x, xs[1..]);
      InsertElements(x, xs[1..]);
      var r := Insert(x, xs[1..]);
      forall i | 0 <= i < |r|
        ensures xs[0].distance <= r[i].distance
      {
        assert r[i] in multiset(r);
        if r[i] != x {
          assert r[i] in multiset(xs[1..]);
          var k :| 0 <= k < |xs[1..]| && xs[1..][k] == r[i];
          assert xs[k + 1] == r[i];
        }
      }
      assert Insert(x, xs) == [xs[0]] + r;
    }
  }

  lemma {:induction false} SortedTail(xs: seq<Similar>)
    requires Sorted(xs) && xs != []
    ensures Sorted(xs[1..])
  {
    var rest := xs[1..];
    forall i, j | 0 <= i < j < |rest| ensures rest[i].distance <= rest[j].distance {
      assert rest[i] == xs[i + 1] && rest[j] == xs[j + 1];
    }
  }

  /** An element nearer than the head goes in front, after nothing of its own distance. */
  lemma {:induction false} InsertStableFront(x: Similar, xs: seq<Similar>, d: int)
    requires Sorted(xs) && xs != [] && x.distance < xs[0].distance
    ensures AtDistance(Insert(x, xs), d) == AtDistance(xs, d) + AtDistance([x], d)
  {
    assert Insert(x, xs) == [x] + xs;
    AtDistanceAppend([x], xs, d);
    if x.distance == d {
      AtDistanceFarther(xs, d);
      assert AtDistance(xs, d) + AtDistance([x], d) == AtDistance([x], d) + [];
    }
  }

  lemma {:induction false} AtDistanceCons(y: Similar, ys: seq<Similar>, d: int)
    ensures AtDistance([y] + ys, d) == (if y.distance == d then [y] else []) + AtDistance(ys, d)
  {
    var all := [y] + ys;
    assert all[0] == y && all[1..] == ys;
  }

  /** An element not nearer than the head goes behind it: the step from the tail's case. */
  lemma {:induction false} InsertStableBehind(x: Similar, xs: seq<Similar>, d: int)
    requires xs != [] && x.distance >= xs[0].distance
    requires AtDistance(Insert(x, xs[1..]), d) == AtDistance(xs[1..], d) + AtDistance([x], d)
    ensures AtDistance(Insert(x, xs), d) == AtDistance(xs, d) + AtDistance([x], d)
  {
    var rest := xs[1..];
    var ins := Insert(x, rest);
    assert Insert(x, xs) == [xs[0]] + ins;
    AtDistanceCons(xs[0], ins, d);
    var h := if xs[0].distance == d then [xs[0]] else [];
    assert AtDistance(xs, d) == h + AtDistance(rest, d);
    assert h + (AtDistance(rest, d) + AtDistance([x], d)) == (h + AtDistance(rest, d)) + AtDistance([x], d);
  }

  lemma {:induction false} InsertStable(x: Similar, xs: seq<Similar>, d: int)
    requires Sorted(xs)
    ensures AtDistance(Insert(x, xs), d) == AtDistance(xs, d) + AtDistance([x], d)
  {
    if xs == [] {
      assert AtDistance(Insert(x, xs), d) == [] + AtDistance([x], d);
    } else if x.distance < xs[0].distance {
      InsertStableFront(x, xs, d);
    } else {
      SortedTail(xs);
      InsertStable(x, xs[1..], d);
      InsertStableBehind(x, xs, d);
    }
  }

  /**
   * The sort is a stable sort: the result is in ascending distance, a
   * permutation of the input, and the elements at each distance keep their
   * input order.
   */
  lemma {:induction false} SortByDistanceSpec(xs: seq<Similar>)
    ensures Sorted(SortByDistance(xs))
    ensures multiset(SortByDistance(xs)) == multiset(xs)
    ensures forall d :: AtDistance(SortByDistance(xs), d) == AtDistance(xs, d)
  {
    if xs != [] {
      var n := |xs| - 1;
      SortByDistanceSpec(xs[..n]);
      InsertSorted(xs[n], SortByDistance(xs[..n]));
      InsertElements(xs[n], SortByDistance(xs[..n]));
      assert xs == xs[..n] + [xs[n]];
      forall d
        ensures AtDistance(SortByDistance(xs), d) == AtDistance(xs, d)
      {
        InsertStable(xs[n], SortByDistance(xs[..n]), d);
        AtDistanceAppend(xs[..n], [xs[n]], d);
      }
    }
  }

  /** The entries of one record that are within the maximum distance, appended to `found`. */
  method CollectRecord(input: string, entries: TlshRecord, maxDistance: int, diff: Diff, found: seq<Similar>) returns (r: seq<Similar>)
    ensures r == found + RecordMatches(input, entries, maxDistance, diff)
  {
    r := found;
    var j := 0;
    while j < |entries|
      invariant 0 <= j <= |entries|
      invariant r == found + RecordMatches(input, entries[..j], maxDistance, diff)
    {
      var (dbTlsh, dbSha256) := entries[j];
      assert entries[..j + 1][..j] == entries[..j];
      assert RecordMatches(input, entries[..j + 1], maxDistance, diff)
        == RecordMatches(input, entries[..j], maxDistance, diff) + Candidate(input, entries[j], maxDistance, diff);
      j := j + 1;
      if dbTlsh == IdKey {
        continue;
      }
      var distance := diff(input, dbTlsh);
      if distance.Some? && distance.value <= maxDistance {
        r := r + [Similar(dbTlsh, dbSha256, distance.value)];
      }
    }
    assert entries[..j] == entries;
  }

  /**
   * `find_similar_hashes` over the records the cursor yields: the matches
   * of every record, sorted by distance.
   */
  method FindSimilarHashes(input: string, records: seq<TlshRecord>, maxDistance: int, diff: Diff) returns (r: seq<Similar>)
    ensures r == SortByDistance(Matches(input, records, maxDistance, diff))
  {
    var similar: seq<Similar> := [];
    var i := 0;
    while i < |records|
      invariant 0 <= i <= |records|
      invariant similar == Matches(input, records[..i], maxDistance, diff)
    {
      assert records[..i + 1][..i] == records[..i];
      similar := CollectRecord(input, records[i], maxDistance, diff, similar);
      i := i + 1;
    }
    assert records[..i] == records;
    if similar != [] {
      similar := SortByDistance(similar);
    }
    return similar;
  }

  /** Every collected match is a hash other than `_id` within the maximum distance. */
  lemma MatchesWithin(input: string, records: seq<TlshRecord>, maxDistance: int, diff: Diff)
    ensures forall s | s in Matches(input, records, maxDistance, diff) ::
              s.distance <= maxDistance && s.tlsh != IdKey && diff(input, s.tlsh) == Some(s.distance)
  {
    MatchesSpec(input, records, maxDistance, diff);
    forall s | s in Matches(input, records, maxDistance, diff)
      ensures s.distance <= maxDistance && s.tlsh != IdKey && diff(input, s.tlsh) == Some(s.distance)
    {
      var i, j :| 0 <= i < |records| && 0 <= j < |records[i]| && s in Candidate(input, records[i][j], maxDistance, diff);
      CandidateSpec(input, records[i][j], maxDistance, diff);
    }
  }

  /**
   * The search result, stated without the sort: it is in ascending
   * distance, holds each match as often as the records yield it, holds
   * only hashes within the maximum distance that are not `_id`, and keeps
   * matches at the same distance in cursor order.
   */
  lemma FindSimilarHashesSpec(input: string, records: seq<TlshRecord>, maxDistance: int, diff: Diff)
    ensures var m := Matches(input, records, maxDistance, diff);
            var r := SortByDistance(m);
            && Sorted(r)
            && multiset(r) == multiset(m)
            && (forall d :: AtDistance(r, d) == AtDistance(m, d))
            && (forall s | s in r :: s.distance <= maxDistance && s.tlsh != IdKey && diff(input, s.tlsh) == Some(s.distance))
  {
    var m := Matches(input, records, maxDistance, diff);
    SortByDistanceSpec(m);
    MatchesWithin(input, records, maxDistance, diff);
    forall s | s in SortByDistance(m)
      ensures s in m
    {
      assert s in multiset(SortByDistance(m));
    }
  }

  // The report

  /** `get_distance_colour`; `input / 2` is true division in the source. */
  function DistanceColour(distance: int, inputDistance: int): (r: string)
    ensures r == "bright_red" <==> distance == 0
    ensures r == "dark_orange3" <==> distance != 0 && distance as real <= inputDistance as real / 2.0
    ensures r == "bright_yellow" <==> distance != 0 && distance as real > inputDistance as real / 2.0
  {
    if distance == 0 then "bright_red"
    else if 2 * distance <= inputDistance then "dark_orange3"
    else "bright_yellow"
  }

  /** The line logged for one result, with the colour for the default input distance. */
  function ResultLine(s: Similar): string {
    "[bold " + DistanceColour(s.distance, DefaultMaxDistance) + "] TLSH: " + s.tlsh + ", SHA256: " + s.sha256
    + ", Distance: " + Text.IntToDecimal(s.distance)
  }

  function ResultLines(results: seq<Similar>): (r: seq<string>)
    ensures |r| == |results|
    ensures forall i | 0 <= i < |results| :: r[i] == ResultLine(results[i])
  {
    seq(|results|, i requires 0 <= i < |results| => ResultLine(results[i]))
  }

  /** `report_tlsh_similarities`: the lines it logs, in order. */
  function ReportLines(results: seq<Similar>): seq<string> {
    if results == [] then ["No similar hashes found"]
    else
      ["Found " + Text.IntToDecimal(|results|) + " similar hashes:"]
      + (if |results| > PrintCap then ["Printing first " + Text.IntToDecimal(PrintCap) + " results"] else [])
      + ResultLines(if |results| > PrintCap then results[..PrintCap] else results)
  }

  /**
   * The report says there is nothing when there are no results; otherwise
   * it gives the count, a truncation notice exactly when there are more
   * than twenty, and one line for each of the first twenty results at
   * most, in order.
   */
  lemma {:induction false} ReportLinesSpec(results: seq<Similar>)
    ensures results == [] ==> ReportLines(results) == ["No similar hashes found"]
    ensures results != [] ==>
              var shown := if |results| < PrintCap then |results| else PrintCap;
              var notice := if |results| > PrintCap then 1 else 0;
              && |ReportLines(results)| == 1 + notice + shown
              && ReportLines(results)[0] == "Found " + Text.IntToDecimal(|results|) + " similar hashes:"
              && (notice == 1 ==> ReportLines(results)[1] == "Printing first " + Text.IntToDecimal(PrintCap) + " results")
              && (forall k | 0 <= k < shown :: ReportLines(results)[1 + notice + k] == ResultLine(results[k]))
  {
    if results != [] {
      var head := ["Found " + Text.IntToDecimal(|results|) + " similar hashes:"];
      var notices := if |results| > PrintCap then ["Printing first " + Text.IntToDecimal(PrintCap) + " results"] else [];
      var shown := if |results| > PrintCap then results[..PrintCap] else results;
      var lines := ResultLines(shown);
      assert ReportLines(results) == (head + notices) + lines;
      forall k | 0 <= k < |shown|
        ensures ((head + notices) + lines)[1 + |notices| + k] == ResultLine(results[k])
      {
        assert shown[k] == results[k];
      }
    }
  }
}
