/** The data update coordinator: the tracked meter ids, the daily update that fetches every
    tracked meter's summary, and the rediscovery of meters on reload. */
module Coordinator {
  import opened Wrappers
  import opened Json
  import Api

  /** What one update hands to Home Assistant: the summaries by meter id, an `UpdateFailed`
      carrying the message of the `UtilityAPIError` that stopped it, or `Unhandled` when an
      exception other than a `UtilityAPIError` escaped. */
  datatype UpdateOutcome =
    | Updated(data: map<string, map<string, Json>>)
    | UpdateFailed(message: string)
    | Unhandled

  /** How a failed summary fetch ends the update. */
  function FailureOutcome(r: Api.Raised): (o: UpdateOutcome)
    ensures r.Api? ==> o == UpdateFailed(r.error.message)
    ensures r.Malformed? ==> o == Unhandled
  {
    match r
    case Api(e) => UpdateFailed(e.message)
    case Malformed => Unhandled
  }

  /** `[m.id for m in meters if not m.archived]`. */
  function ActiveIds(ms: seq<Api.Meter>): (ids: seq<string>)
    ensures |ids| <= |ms|
    ensures forall id :: id in ids <==> exists m :: m in ms && !m.archived && m.id == id
  {
    if ms == [] then []
    else (if ms[0].archived then [] else [ms[0].id]) + ActiveIds(ms[1..])
  }

  /** The ids keep listing order: the filter distributes over concatenation. */
  lemma {:induction false} ActiveIdsAppend(a: seq<Api.Meter>, b: seq<Api.Meter>)
    ensures ActiveIds(a + b) == ActiveIds(a) + ActiveIds(b)
  {
    if a != [] {
      assert (a + b)[1..] == a[1..] + b;
      ActiveIdsAppend(a[1..], b);
    } else {
      assert a + b == b;
    }
  }

  class UtilityApiCoordinator {
    const client: Api.Client
    var meterIds: seq<string>

    constructor (client: Api.Client, meterIds: seq<string>)
      ensures this.client == client && this.meterIds == meterIds
    {
      this.client := client;
      this.meterIds := meterIds;
    }

    /** The `meter_ids` property. */
    function MeterIds(): seq<string>
      reads this
    {
      meterIds
    }

    /** `_async_update_data`: fetch each tracked meter's summary in list order and store it
        under the meter's id. The first failure ends the update and no partial map is
        returned. */
    method UpdateData(t: Api.Transport) returns (r: UpdateOutcome)
      ensures r == Update(client, t, meterIds)
      ensures r.Updated? <==> forall i :: 0 <= i < |meterIds| ==> Api.Summary(client, t, meterIds[i]).Ok?
      ensures r.Updated? ==> r.data.Keys == set i | 0 <= i < |meterIds| :: meterIds[i]
      ensures r.Updated? ==> forall id :: id in r.data ==> Api.Summary(client, t, id) == Ok(r.data[id])
      ensures !r.Updated? ==>
        exists k :: FailsFirstAt(client, t, meterIds, k) && r == FailureOutcome(Api.Summary(client, t, meterIds[k]).error)
    {
      ghost var sums := Summaries(client, t, meterIds);
      var results: map<string, map<string, Json>> := map[];
      var i := 0;
      while i < |meterIds|
        invariant 0 <= i <= |meterIds|
        invariant Collect(meterIds[..i], sums[..i]) == Updated(results)
      {
        var s := Api.RefreshMeterSummary(client, t, meterIds[i]);
        CollectStep(meterIds, sums, i);
        if s.Err? {
          CollectStops(meterIds, sums, i + 1);
          UpdateMeaning(client, t, meterIds);
          return FailureOutcome(s.error);
        }
        results := results[meterIds[i] := s.value];
        i := i + 1;
      }
      assert meterIds[..i] == meterIds && sums[..i] == sums;
      UpdateMeaning(client, t, meterIds);
      return Updated(results);
    }

    /** `refresh_meters`: list the non-archived meters and replace the tracked ids wholesale.
        When the listing raises, the ids stay as they were. */
    method RefreshMeters(t: Api.Transport) returns (r: Result<seq<string>, Api.Raised>)
      modifies this
      ensures var listing := Api.Listing(client, t, Some(false));
        && (listing.Ok? ==> meterIds == ActiveIds(listing.value) && r == Ok(MeterIds()))
        && (listing.Err? ==> meterIds == old(meterIds) && r == Err(listing.error))
    {
      var meters := Api.ListMeters(client, t, Some(false));
      if meters.Err? {
        return Err(meters.error);
      }
      meterIds := ActiveIds(meters.value);
      return Ok(meterIds);
    }
  }

  type Summary = Result<map<string, Json>, Api.Raised>

  /** The result of `_async_update_data` once the summaries of `ids` are known to be `sums`:
      the first failing summary ends the update, otherwise each summary is stored under its
      id in list order (a repeated id keeps its last summary). */
  function Collect(ids: seq<string>, sums: seq<Summary>): UpdateOutcome
    requires |sums| == |ids|
  {
    if ids == [] then Updated(map[])
    else
      var n := |ids| - 1;
      var before := Collect(ids[..n], sums[..n]);
      if !before.Updated? then before
      else match sums[n]
        case Ok(v) => Updated(before.data[ids[n] := v])
        case Err(e) => FailureOutcome(e)
  }

  /** Sum `k` is the first failing one. */
  predicate FirstFailure(sums: seq<Summary>, k: int) {
    0 <= k < |sums| && sums[k].Err? && forall j :: 0 <= j < k ==> sums[j].Ok?
  }

  /** One more fetched summary: the loop's step. */
  lemma CollectStep(ids: seq<string>, sums: seq<Summary>, i: nat)
    requires |sums| == |ids| && i < |ids|
    ensures var before := Collect(ids[..i], sums[..i]);
      Collect(ids[..i + 1], sums[..i + 1]) ==
        if !before.Updated? then before
        else match sums[i]
          case Ok(v) => Updated(before.data[ids[i] := v])
          case Err(e) => FailureOutcome(e)
  {
    assert ids[..i + 1][..i] == ids[..i];
    assert sums[..i + 1][..i] == sums[..i];
  }

  /** Once a prefix has failed, fetching more summaries does not change the outcome. */
  lemma {:induction false} CollectStops(ids: seq<string>, sums: seq<Summary>, i: nat)
    requires |sums| == |ids| && i <= |ids|
    requires !Collect(ids[..i], sums[..i]).Updated?
    ensures Collect(ids, sums) == Collect(ids[..i], sums[..i])
    decreases |ids| - i
  {
    if i < |ids| {
      CollectStep(ids, sums, i);
      CollectStops(ids, sums, i + 1);
    } else {
      assert ids[..i] == ids && sums[..i] == sums;
    }
  }

  /** The update succeeds exactly when every summary does, and then holds one entry per id,
      each one of that id's summaries; otherwise it is the outcome of the first failure. */
  lemma {:induction false} CollectMeaning(ids: seq<string>, sums: seq<Summary>)
    requires |sums| == |ids|
    ensures Collect(ids, sums).Updated? <==> forall j :: 0 <= j < |sums| ==> sums[j].Ok?
    ensures Collect(ids, sums).Updated? ==> Collect(ids, sums).data.Keys == set j | 0 <= j < |ids| :: ids[j]
    ensures Collect(ids, sums).Updated? ==> forall id :: id in Collect(ids, sums).data ==>
      exists j :: 0 <= j < |ids| && ids[j] == id && sums[j] == Ok(Collect(ids, sums).data[id])
    ensures !Collect(ids, sums).Updated? ==>
      exists k :: FirstFailure(sums, k) && Collect(ids, sums) == FailureOutcome(sums[k].error)
  {
    if ids != [] {
      var n := |ids| - 1;
      var ids', sums' := ids[..n], sums[..n];
      CollectMeaning(ids', sums');
      var before := Collect(ids', sums');
      if before.Updated? {
        assert forall j :: 0 <= j < n ==> sums[j] == sums'[j];
        if sums[n].Ok? {
          var d := Collect(ids, sums).data;
          assert d == before.data[ids[n] := sums[n].value];
          assert (set j | 0 <= j < |ids| :: ids[j]) == (set j | 0 <= j < n :: ids'[j]) + {ids[n]};
          forall id | id in d
            ensures exists j :: 0 <= j < |ids| && ids[j] == id && sums[j] == Ok(d[id])
          {
            if id == ids[n] {
              assert sums[n] == Ok(d[id]);
            } else {
              var j :| 0 <= j < n && ids'[j] == id && sums'[j] == Ok(before.data[id]);
              assert ids[j] == id && sums[j] == Ok(d[id]);
            }
          }
        } else {
          assert FirstFailure(sums, n);
        }
      } else {
        var k :| FirstFailure(sums', k) && before == FailureOutcome(sums'[k].error);
        assert FirstFailure(sums, k);
      }
    }
  }

  /** The summaries of the meters `ids`, in order. */
  ghost function Summaries(c: Api.Client, t: Api.Transport, ids: seq<string>): (sums: seq<Summary>)
    ensures |sums| == |ids|
    ensures forall j :: 0 <= j < |ids| ==> sums[j] == Api.Summary(c, t, ids[j])
  {
    seq(|ids|, j requires 0 <= j < |ids| => Api.Summary(c, t, ids[j]))
  }

  /** The spelled-out meaning of `_async_update_data`. */
  ghost function Update(c: Api.Client, t: Api.Transport, ids: seq<string>): UpdateOutcome {
    Collect(ids, Summaries(c, t, ids))
  }

  /** The summaries of the meters before `k` were fetched and the one of meter `k` failed. */
  ghost predicate FailsFirstAt(c: Api.Client, t: Api.Transport, ids: seq<string>, k: int) {
    && 0 <= k < |ids|
    && (forall j :: 0 <= j < k ==> Api.Summary(c, t, ids[j]).Ok?)
    && Api.Summary(c, t, ids[k]).Err?
  }

  /** `_async_update_data` in terms of the summaries: it succeeds exactly when every tracked
      meter's summary does, then maps each id to its summary; otherwise it ends with the
      first failure, an `UpdateFailed` for a `UtilityAPIError`. */
  lemma UpdateMeaning(c: Api.Client, t: Api.Transport, ids: seq<string>)
    ensures Update(c, t, ids).Updated? <==> forall i :: 0 <= i < |ids| ==> Api.Summary(c, t, ids[i]).Ok?
    ensures Update(c, t, ids).Updated? ==> Update(c, t, ids).data.Keys == set i | 0 <= i < |ids| :: ids[i]
    ensures Update(c, t, ids).Updated? ==>
      forall id :: id in Update(c, t, ids).data ==> Api.Summary(c, t, id) == Ok(Update(c, t, ids).data[id])
    ensures !Update(c, t, ids).Updated? ==>
      exists k :: FailsFirstAt(c, t, ids, k) && Update(c, t, ids) == FailureOutcome(Api.Summary(c, t, ids[k]).error)
  {
    var sums := Summaries(c, t, ids);
    CollectMeaning(ids, sums);
    var r := Collect(ids, sums);
    if r.Updated? {
      forall id | id in r.data
        ensures Api.Summary(c, t, id) == Ok(r.data[id])
      {
        var j :| 0 <= j < |ids| && ids[j] == id && sums[j] == Ok(r.data[id]);
      }
    } else {
      var k :| FirstFailure(sums, k) && r == FailureOutcome(sums[k].error);
      assert FailsFirstAt(c, t, ids, k);
    }
  }

  /** After a successful rediscovery the tracked ids are the nonempty ids of the listed
      non-archived meters, and an id no such meter carries is no longer tracked. */
  lemma RediscoveredIds(c: Api.Client, t: Api.Transport)
    ensures var listing := Api.Listing(c, t, Some(false));
      listing.Ok? ==>
        && (forall id :: id in ActiveIds(listing.value) ==> id != "")
        && (forall id :: id in ActiveIds(listing.value) <==>
              exists m :: m in listing.value && !m.archived && m.id == id)
  {
    if Api.Listing(c, t, Some(false)).Ok? {
      Api.ListingMeters(c, t, Some(false));
    }
  }
}
