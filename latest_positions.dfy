/** The `latestLocations` reducer of the tracking page
    (pages/admin/AdminTrackingPage.tsx, lines 85-93): one pass over the day's samples
    that keeps, per researcher, the sample with the greatest timestamp, and then lists
    the kept samples in the key order of the dictionary it filled. */
module LatestPositions {
  import opened Seqs
  import opened TrackingTypes

  /** One step of the `forEach`: store `loc` when nothing is stored for its researcher
      yet, or when it is strictly newer than the stored sample. */
  function Absorb(latest: map<string, Sample>, loc: Sample): map<string, Sample> {
    if loc.researcherId !in latest || loc.timestamp > latest[loc.researcherId].timestamp
    then latest[loc.researcherId := loc]
    else latest
  }

  /** The dictionary `latest` after the `forEach` has visited all of `locs`. */
  function LatestById(locs: seq<Sample>): map<string, Sample>
    decreases |locs|
  {
    if locs == [] then map[]
    else Absorb(LatestById(locs[..|locs| - 1]), locs[|locs| - 1])
  }

  /** The key order of that dictionary: a key takes its place when it is first
      assigned, and later assignments to it do not move it. */
  function FirstSeen(locs: seq<Sample>): seq<string>
    decreases |locs|
  {
    if locs == [] then []
    else
      var ids := FirstSeen(locs[..|locs| - 1]);
      var id := locs[|locs| - 1].researcherId;
      if id in ids then ids else ids + [id]
  }

  /** `Object.values(latest)`: the kept samples in key order. */
  function LatestValues(locs: seq<Sample>): seq<Sample> {
    LatestKeys(locs);
    var ids := FirstSeen(locs);
    var latest := LatestById(locs);
    seq(|ids|, k requires 0 <= k < |ids| => latest[ids[k]])
  }

  /** Sample `j` is the first of the samples of researcher `id` that carry the greatest
      timestamp among them: every sample of `id` is no newer, and every earlier one is
      strictly older. */
  ghost predicate IsFirstNewest(locs: seq<Sample>, id: string, j: int) {
    && 0 <= j < |locs|
    && locs[j].researcherId == id
    && (forall i :: 0 <= i < |locs| && locs[i].researcherId == id ==> locs[i].timestamp <= locs[j].timestamp)
    && (forall i :: 0 <= i < j && locs[i].researcherId == id ==> locs[i].timestamp < locs[j].timestamp)
  }

  /** At most one index is the first newest sample of a researcher. */
  lemma FirstNewestIsUnique(locs: seq<Sample>, id: string, j1: int, j2: int)
    requires IsFirstNewest(locs, id, j1) && IsFirstNewest(locs, id, j2)
    ensures j1 == j2
  {
  }

  lemma IdsOfSnoc(locs: seq<Sample>)
    requires locs != []
    ensures Ids(locs) == Ids(locs[..|locs| - 1]) + {locs[|locs| - 1].researcherId}
  {
    var prefix, last := locs[..|locs| - 1], locs[|locs| - 1];
    assert locs == prefix + [last];
    forall id | id in Ids(locs) ensures id in Ids(prefix) + {last.researcherId} {
      var loc :| loc in locs && loc.researcherId == id;
      if loc != last {
        assert loc in prefix;
      }
    }
    forall id | id in Ids(prefix) ensures id in Ids(locs) {
      var loc :| loc in prefix && loc.researcherId == id;
      assert loc in locs;
    }
  }

  /** The dictionary holds an entry for exactly the researchers that occur in the input,
      and its key order lists each of them exactly once. */
  lemma {:induction false} LatestKeys(locs: seq<Sample>)
    ensures LatestById(locs).Keys == Ids(locs)
    ensures forall id :: id in FirstSeen(locs) <==> id in LatestById(locs)
    ensures Distinct(FirstSeen(locs))
    decreases |locs|
  {
    if locs != [] {
      LatestKeys(locs[..|locs| - 1]);
      IdsOfSnoc(locs);
    }
  }

  /** A first newest sample stays so when a sample of another researcher, or a sample
      that is not newer, is appended. */
  lemma KeepFirstNewest(prefix: seq<Sample>, last: Sample, id: string, j: int)
    requires IsFirstNewest(prefix, id, j)
    requires last.researcherId == id ==> last.timestamp <= prefix[j].timestamp
    ensures IsFirstNewest(prefix + [last], id, j)
  {
    var locs := prefix + [last];
    forall i | 0 <= i < |locs| && locs[i].researcherId == id
      ensures locs[i].timestamp <= locs[j].timestamp
    {
      if i < |prefix| { assert locs[i] == prefix[i]; }
    }
  }

  /** An appended sample strictly newer than every earlier sample of its researcher is
      that researcher's first newest sample. */
  lemma NewestLast(prefix: seq<Sample>, last: Sample)
    requires forall i :: 0 <= i < |prefix| && prefix[i].researcherId == last.researcherId ==>
      prefix[i].timestamp < last.timestamp
    ensures IsFirstNewest(prefix + [last], last.researcherId, |prefix|)
  {
    var locs := prefix + [last];
    forall i | 0 <= i < |prefix| ensures locs[i] == prefix[i] { }
  }

  /** The entry kept for a researcher is that researcher's first newest sample: it is an
      element of the input, no sample of the researcher is newer, and on a tie of
      timestamps the strict comparison keeps the one met first. */
  lemma {:induction false} LatestIsFirstNewest(locs: seq<Sample>, id: string)
    requires id in LatestById(locs)
    ensures exists j :: IsFirstNewest(locs, id, j) && locs[j] == LatestById(locs)[id]
    decreases |locs|
  {
    var prefix, last := locs[..|locs| - 1], locs[|locs| - 1];
    assert locs == prefix + [last];
    var before := LatestById(prefix);
    LatestKeys(prefix);
    if last.researcherId == id && id !in before {
      forall i | 0 <= i < |prefix| ensures prefix[i].researcherId != id {
        assert prefix[i] in prefix;
      }
      NewestLast(prefix, last);
      assert locs[|prefix|] == LatestById(locs)[id];
    } else {
      LatestIsFirstNewest(prefix, id);
      var j :| IsFirstNewest(prefix, id, j) && prefix[j] == before[id];
      if last.researcherId == id && last.timestamp > before[id].timestamp {
        NewestLast(prefix, last);
        assert locs[|prefix|] == LatestById(locs)[id];
      } else {
        KeepFirstNewest(prefix, last, id, j);
        assert locs[j] == prefix[j];
      }
    }
  }

  /** What the page shows as `latestLocations`: the listed samples belong to distinct
      researchers, every researcher of the input is listed, and each listed sample is
      an input sample and that researcher's first newest one. */
  lemma LatestValuesSpec(locs: seq<Sample>)
    ensures var latest := LatestValues(locs);
      && (forall k1, k2 :: 0 <= k1 < k2 < |latest| ==> latest[k1].researcherId != latest[k2].researcherId)
      && (forall id :: id in Ids(locs) <==> exists k :: 0 <= k < |latest| && latest[k].researcherId == id)
      && (forall k :: 0 <= k < |latest| ==> latest[k] in locs)
      && (forall k :: 0 <= k < |latest| ==> exists j :: IsFirstNewest(locs, latest[k].researcherId, j) && locs[j] == latest[k])
  {
    var latest, ids, m := LatestValues(locs), FirstSeen(locs), LatestById(locs);
    LatestKeys(locs);
    forall k | 0 <= k < |latest|
      ensures latest[k].researcherId == ids[k]
      ensures exists j :: IsFirstNewest(locs, ids[k], j) && locs[j] == latest[k]
    {
      LatestIsFirstNewest(locs, ids[k]);
    }
    forall id | id in Ids(locs) ensures exists k :: 0 <= k < |latest| && latest[k].researcherId == id {
      var k :| 0 <= k < |ids| && ids[k] == id;
      assert latest[k].researcherId == id;
    }
  }

  /** One iteration of the reducer's loop, stated on prefixes of the input. */
  lemma ReducerStep(locs: seq<Sample>, i: int)
    requires 0 <= i < |locs|
    ensures LatestById(locs[..i + 1]) == Absorb(LatestById(locs[..i]), locs[i])
    ensures FirstSeen(locs[..i + 1]) ==
      if locs[i].researcherId in LatestById(locs[..i]) then FirstSeen(locs[..i])
      else FirstSeen(locs[..i]) + [locs[i].researcherId]
  {
    assert locs[..i + 1][..i] == locs[..i];
    LatestKeys(locs[..i]);
  }

  /** The reducer as the page runs it: a loop filling a dictionary in place, followed by
      `Object.values`. The input sequence is a value and is left as it was. */
  method LatestLocations(locations: seq<Sample>) returns (latest: seq<Sample>)
    ensures latest == LatestValues(locations)
    ensures forall k :: 0 <= k < |latest| ==> latest[k] in locations
    ensures forall k1, k2 :: 0 <= k1 < k2 < |latest| ==> latest[k1].researcherId != latest[k2].researcherId
  {
    var byId: map<string, Sample> := map[];
    var order: seq<string> := [];
    var i := 0;
    while i < |locations|
      invariant 0 <= i <= |locations|
      invariant byId == LatestById(locations[..i])
      invariant order == FirstSeen(locations[..i])
    {
      ReducerStep(locations, i);
      var loc := locations[i];
      if loc.researcherId !in byId || loc.timestamp > byId[loc.researcherId].timestamp {
        if loc.researcherId !in byId {
          order := order + [loc.researcherId];
        }
        byId := byId[loc.researcherId := loc];
      }
      i := i + 1;
    }
    assert locations[..i] == locations;
    LatestKeys(locations);
    ghost var values := LatestValues(locations);
    latest := [];
    var k := 0;
    while k < |order|
      invariant 0 <= k <= |order| == |values|
      invariant latest == values[..k]
    {
      assert values[k] == byId[order[k]];
      latest := latest + [byId[order[k]]];
      k := k + 1;
    }
    LatestValuesSpec(locations);
  }
}
