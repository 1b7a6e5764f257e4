/** Tags of the place cache (service/google_place_cache_service.go): a tag names one place. The collection is a map from
    document id to record; every method is the sequence of database calls the service makes, run alone. */
module PlaceCache {
  import opened Model

  datatype Candidate = Candidate(placeId: string, name: string, address: string)

  datatype Record = Record(
    query: string, candidates: seq<Candidate>, placeId: string, name: string, address: string, tags: seq<string>)

  /** The fields an update request carries. */
  datatype Update = Update(query: Option<string>, name: Option<string>, address: Option<string>, tags: Option<seq<string>>)

  type Collection = map<string, Record>

  // ----- Tag lists

  ghost predicate Distinct(tags: seq<string>) {
    forall i, j | 0 <= i < j < |tags| :: tags[i] != tags[j]
  }

  /** The tags that do not occur further left, in order. */
  function FirstOccurrences(tags: seq<string>): seq<string> {
    if tags == [] then []
    else
      var n := |tags| - 1;
      FirstOccurrences(tags[..n]) + if tags[n] in tags[..n] then [] else [tags[n]]
  }

  function FirstIndex(tags: seq<string>, t: string): (i: nat)
    requires t in tags
    ensures i < |tags| && tags[i] == t && t !in tags[..i]
  {
    if tags[0] == t then 0 else FirstIndex(tags[1..], t) + 1
  }

  /** Dropping repeats keeps the set of tags, leaves none twice, and keeps the order of first occurrences. */
  lemma {:induction false} FirstOccurrencesCorrect(tags: seq<string>)
    ensures var u := FirstOccurrences(tags);
            && Distinct(u)
            && (forall t :: t in u <==> t in tags)
            && (forall i, j | 0 <= i < j < |u| :: FirstIndex(tags, u[i]) < FirstIndex(tags, u[j]))
  {
    if tags != [] {
      var n := |tags| - 1;
      var init, u := tags[..n], FirstOccurrences(tags[..n]);
      FirstOccurrencesCorrect(init);
      assert tags == init + [tags[n]];
      forall t | t in init ensures FirstIndex(tags, t) == FirstIndex(init, t) {
        FirstIndexUnique(tags, t, FirstIndex(init, t));
      }
      if tags[n] !in init {
        FirstIndexUnique(tags, tags[n], n);
      }
    }
  }

  lemma FirstIndexUnique(tags: seq<string>, t: string, i: nat)
    requires i < |tags| && tags[i] == t && t !in tags[..i]
    ensures FirstIndex(tags, t) == i
  {
    var k := FirstIndex(tags, t);
    assert forall a | 0 <= a < i :: tags[a] == tags[..i][a] && tags[a] in tags[..i];
    assert forall a | 0 <= a < k :: tags[a] == tags[..k][a] && tags[a] in tags[..k];
  }

  method RemoveDuplicates(tags: seq<string>) returns (uniqueTags: seq<string>)
    ensures uniqueTags == FirstOccurrences(tags)
  {
    uniqueTags := [];
    var tagMap: set<string> := {};
    for i := 0 to |tags|
      invariant uniqueTags == FirstOccurrences(tags[..i])
      invariant tagMap == set t | t in tags[..i]
    {
      assert tags[..i + 1][..i] == tags[..i];
      if tags[i] !in tagMap {
        tagMap := tagMap + {tags[i]};
        uniqueTags := uniqueTags + [tags[i]];
      }
    }
    assert tags[..|tags|] == tags;
  }

  /** $addToSet with $each. */
  function AddToSet(existing: seq<string>, tags: seq<string>): seq<string>
    decreases |tags|
  {
    if tags == [] then existing
    else AddToSet(if tags[0] in existing then existing else existing + [tags[0]], tags[1..])
  }

  lemma {:induction false} AddToSetCorrect(existing: seq<string>, tags: seq<string>)
    requires Distinct(existing)
    ensures Distinct(AddToSet(existing, tags)) && existing <= AddToSet(existing, tags)
    ensures forall t :: t in AddToSet(existing, tags) <==> t in existing || t in tags
    decreases |tags|
  {
    if tags != [] {
      AddToSetCorrect(if tags[0] in existing then existing else existing + [tags[0]], tags[1..]);
      assert tags == [tags[0]] + tags[1..];
    }
  }

  /** $pullAll. */
  function PullAll(existing: seq<string>, tags: seq<string>): seq<string> {
    if existing == [] then []
    else
      var n := |existing| - 1;
      PullAll(existing[..n], tags) + if existing[n] in tags then [] else [existing[n]]
  }

  lemma {:induction false} PullAllCorrect(existing: seq<string>, tags: seq<string>)
    ensures Distinct(existing) ==> Distinct(PullAll(existing, tags))
    ensures forall t :: t in PullAll(existing, tags) <==> t in existing && t !in tags
  {
    if existing != [] {
      var n := |existing| - 1;
      PullAllCorrect(existing[..n], tags);
      assert existing == existing[..n] + [existing[n]];
    }
  }

  // ----- The invariant

  /** Every tag belongs to at most one record, and no record lists a tag twice. */
  ghost predicate TagsUnique(c: Collection) {
    && (forall id | id in c :: Distinct(c[id].tags))
    && (forall i, j, t | i in c && j in c && t in c[i].tags && t in c[j].tags :: i == j)
  }

  /** CountDocuments({tags: tag, _id: {$ne: except}}) == 0 */
  predicate TagFree(c: Collection, tag: string, except: Option<string>) {
    forall id | id in c && Some(id) != except :: tag !in c[id].tags
  }

  predicate AllFree(c: Collection, tags: seq<string>, except: Option<string>) {
    forall t | t in tags :: TagFree(c, t, except)
  }

  /** Tags are free exactly if no record, other than an excepted one, has any of them. */
  lemma FreeMeansUnowned(c: Collection, tags: seq<string>, except: Option<string>)
    ensures AllFree(c, tags, except) <==> forall o, t | o in c && Some(o) != except && t in tags :: t !in c[o].tags
  {
    if AllFree(c, tags, except) {
      forall o, t | o in c && Some(o) != except && t in tags ensures t !in c[o].tags {
        assert TagFree(c, t, except);
      }
    }
  }

  lemma WriteTags(c: Collection, id: string, record: Record)
    requires TagsUnique(c) && Distinct(record.tags) && AllFree(c, record.tags, Some(id))
    ensures TagsUnique(c[id := record])
  {
    var d := c[id := record];
    forall i, j, t | i in d && j in d && t in d[i].tags && t in d[j].tags ensures i == j
    {
      assert t in record.tags ==> TagFree(c, t, Some(id));
    }
  }

  /** The upserts of crawled places: every non-empty field of the new data but never the tags. */
  function SetFields(before: Record, cache: Record): Record {
    Record(
      cache.query,
      if cache.candidates != [] then cache.candidates else before.candidates,
      if cache.placeId != "" then cache.placeId else before.placeId,
      if cache.name != "" then cache.name else before.name,
      if cache.address != "" then cache.address else before.address,
      before.tags)
  }

  /** The record after an upsert: the query of the new data; every other field of the new data that is not empty, else what
      was there; the tags that were there. */
  ghost predicate Merged(r: Record, before: Record, cache: Record) {
    && r.query == cache.query && r.tags == before.tags
    && (cache.candidates != [] ==> r.candidates == cache.candidates)
    && (cache.candidates == [] ==> r.candidates == before.candidates)
    && (cache.placeId != "" ==> r.placeId == cache.placeId) && (cache.placeId == "" ==> r.placeId == before.placeId)
    && (cache.name != "" ==> r.name == cache.name) && (cache.name == "" ==> r.name == before.name)
    && (cache.address != "" ==> r.address == cache.address) && (cache.address == "" ==> r.address == before.address)
  }

  const Empty := Record("", [], "", "", "", [])

  class GooglePlaceCacheService {
    var records: Collection

    constructor ()
      ensures records == map[]
    {
      records := map[];
    }

    method AllTagsFree(tags: seq<string>, except: Option<string>) returns (free: bool)
      ensures free == AllFree(records, tags, except)
    {
      for i := 0 to |tags|
        invariant AllFree(records, tags[..i], except)
      {
        if !TagFree(records, tags[i], except) {
          assert tags[i] in tags;
          return false;
        }
      }
      assert tags[..|tags|] == tags;
      return true;
    }

    /** Succeeds exactly if no record has any of the tags; newId is the id the database hands out. */
    method CreateGooglePlaceCache(newId: string, cache: Record) returns (result: Result<Record>)
      requires TagsUnique(records) && newId !in records
      modifies this
      ensures TagsUnique(records)
      ensures result.Ok? <==> old(AllFree(records, cache.tags, None))
      ensures result.Ok? <==> forall id, t | id in old(records) && t in cache.tags :: t !in old(records)[id].tags
      ensures result.Ok? ==> result.value == cache.(tags := FirstOccurrences(cache.tags))
      ensures records == if result.Ok? then old(records)[newId := result.value] else old(records)
    {
      FreeMeansUnowned(records, cache.tags, None);
      var tags := RemoveDuplicates(cache.tags);
      FirstOccurrencesCorrect(cache.tags);
      var free := AllTagsFree(tags, None);
      if !free {
        return Err;
      }
      var stored := cache.(tags := tags);
      assert forall t | t in tags :: TagFree(records, t, None) && TagFree(records, t, Some(newId));
      WriteTags(records, newId, stored);
      records := records[newId := stored];
      return Ok(stored);
    }

    /** Fails, changing nothing, if another record has one of the new tags or the record does not exist; a new
        address goes to the first candidate as well. */
    method UpdateGooglePlaceCache(id: string, u: Update) returns (result: Result<Record>)
      requires TagsUnique(records)
      modifies this
      ensures TagsUnique(records)
      ensures result.Ok? <==> id in old(records) && (u.tags.Some? ==> old(AllFree(records, u.tags.value, Some(id))))
      ensures result.Ok? <==>
                && id in old(records)
                && (u.tags.Some? ==>
                      forall o, t | o in old(records) && o != id && t in u.tags.value :: t !in old(records)[o].tags)
      ensures result.Err? ==> records == old(records)
      ensures result.Ok? ==>
                && records == old(records)[id := result.value]
                && result.value.tags == (if u.tags.Some? then FirstOccurrences(u.tags.value) else old(records)[id].tags)
                && result.value.query == (if u.query.Some? then u.query.value else old(records)[id].query)
                && result.value.name == (if u.name.Some? then u.name.value else old(records)[id].name)
                && result.value.placeId == old(records)[id].placeId
                && result.value.address == (if u.address.Some? then u.address.value else old(records)[id].address)
                && |result.value.candidates| == |old(records)[id].candidates|
                && (forall k | 0 <= k < |result.value.candidates| ::
                      result.value.candidates[k]
                      == if k == 0 && u.address.Some? then old(records)[id].candidates[0].(address := u.address.value)
                         else old(records)[id].candidates[k])
    {
      if u.tags.Some? {
        FreeMeansUnowned(records, u.tags.value, Some(id));
      }
      var tags: Option<seq<string>> := None;
      if u.tags.Some? {
        var free := AllTagsFree(u.tags.value, Some(id));
        if !free {
          return Err;
        }
        var uniqueTags := RemoveDuplicates(u.tags.value);
        FirstOccurrencesCorrect(u.tags.value);
        tags := Some(uniqueTags);
      }
      if id !in records {
        return Err;
      }
      var record := records[id];
      var updated := record;
      if tags.Some? {
        updated := updated.(tags := tags.value);
      }
      if u.query.Some? {
        updated := updated.(query := u.query.value);
      }
      if u.name.Some? {
        updated := updated.(name := u.name.value);
      }
      if u.address.Some? {
        updated := updated.(address := u.address.value);
        if |record.candidates| > 0 {
          updated := updated.(candidates := record.candidates[0 := record.candidates[0].(address := u.address.value)]);
        }
      }
      assert AllFree(records, updated.tags, Some(id));
      WriteTags(records, id, updated);
      records := records[id := updated];
      return Ok(updated);
    }

    method AddTags(id: string, tags: seq<string>) returns (result: Result<Record>)
      requires TagsUnique(records)
      modifies this
      ensures TagsUnique(records)
      ensures result.Ok? <==> id in old(records) && old(AllFree(records, tags, Some(id)))
      ensures result.Ok? <==>
                id in old(records) && forall o, t | o in old(records) && o != id && t in tags :: t !in old(records)[o].tags
      ensures result.Err? ==> records == old(records)
      ensures result.Ok? ==>
                && records == old(records)[id := result.value]
                && result.value == old(records)[id].(tags := AddToSet(old(records)[id].tags, tags))
                && old(records)[id].tags <= result.value.tags
                && forall t :: t in result.value.tags <==> t in old(records)[id].tags || t in tags
    {
      FreeMeansUnowned(records, tags, Some(id));
      var free := AllTagsFree(tags, Some(id));
      if !free || id !in records {
        return Err;
      }
      AddToSetCorrect(records[id].tags, tags);
      var updated := records[id].(tags := AddToSet(records[id].tags, tags));
      assert forall t | t in records[id].tags :: TagFree(records, t, Some(id));
      WriteTags(records, id, updated);
      records := records[id := updated];
      return Ok(updated);
    }

    method RemoveTags(id: string, tags: seq<string>) returns (result: Result<Record>)
      requires TagsUnique(records)
      modifies this
      ensures TagsUnique(records)
      ensures result.Ok? <==> id in old(records)
      ensures result.Err? ==> records == old(records)
      ensures result.Ok? ==>
                && records == old(records)[id := result.value]
                && result.value == old(records)[id].(tags := PullAll(old(records)[id].tags, tags))
                && forall t :: t in result.value.tags <==> t in old(records)[id].tags && t !in tags
    {
      if id !in records {
        return Err;
      }
      PullAllCorrect(records[id].tags, tags);
      var updated := records[id].(tags := PullAll(records[id].tags, tags));
      assert forall t | t in records[id].tags :: TagFree(records, t, Some(id));
      WriteTags(records, id, updated);
      records := records[id := updated];
      return Ok(updated);
    }

    method DeleteGooglePlaceCache(id: string) returns (ok: bool)
      requires TagsUnique(records)
      modifies this
      ensures TagsUnique(records)
      ensures ok <==> id in old(records)
      ensures records == old(records) - {id}
    {
      ok := id in records;
      records := records - {id};
    }

    /** The three upserts differ in their filter only: by query, by query and place, or by place. One matching
        record, whichever the database picks, takes the new data and keeps its tags; without a match a record
        without tags is inserted. */
    method Upsert(newId: string, cache: Record, byQuery: bool, byPlace: bool)
      requires TagsUnique(records) && newId !in records && cache.tags == []
      modifies this
      ensures TagsUnique(records)
      ensures var hits := set id | id in old(records)
                                   && (!byQuery || old(records)[id].query == cache.query)
                                   && (!byPlace || old(records)[id].placeId == cache.placeId);
              if hits == {} then
                records.Keys == old(records).Keys + {newId} && Merged(records[newId], Record("", [], "", "", "", []), cache)
                && forall id | id in old(records) :: records[id] == old(records)[id]
              else
                records.Keys == old(records).Keys
                && exists hit | hit in hits :: Merged(records[hit], old(records)[hit], cache)
                                               && forall id | id in records && id != hit :: records[id] == old(records)[id]
      ensures var matching := old(set id | id in records && Matches(records[id], cache, byQuery, byPlace));
              if matching == {} then records == old(records)[newId := SetFields(Empty, cache)]
              else exists id | id in matching :: records == old(records)[id := SetFields(old(records)[id], cache)]
    {
      var matching := set id | id in records && Matches(records[id], cache, byQuery, byPlace);
      ghost var hits := set id | id in records && (!byQuery || records[id].query == cache.query)
                                 && (!byPlace || records[id].placeId == cache.placeId);
      assert hits == matching;
      if matching == {} {
        WriteTags(records, newId, SetFields(Empty, cache));
        records := records[newId := SetFields(Empty, cache)];
      } else {
        var id :| id in matching;
        assert forall t | t in records[id].tags :: TagFree(records, t, Some(id));
        WriteTags(records, id, SetFields(records[id], cache));
        assert Merged(SetFields(records[id], cache), records[id], cache);
        records := records[id := SetFields(records[id], cache)];
        assert id in hits && id in records;
      }
    }

    static predicate Matches(r: Record, cache: Record, byQuery: bool, byPlace: bool) {
      (byQuery ==> r.query == cache.query) && (byPlace ==> r.placeId == cache.placeId)
    }

    /** Tags first, then the query; a tag lookup finds at most one record. */
    method FindByTagsOrQuery(input: string) returns (found: set<string>)
      requires TagsUnique(records)
      ensures var tagged := set id | id in records && input in records[id].tags;
              && |tagged| <= 1
              && found == if tagged != {} then tagged else set id | id in records && records[id].query == input
    {
      found := set id | id in records && input in records[id].tags;
      OneOwner(records, input);
      if |found| > 0 {
        return;
      }
      found := set id | id in records && records[id].query == input;
    }
  }

  lemma OneOwner(c: Collection, tag: string)
    requires TagsUnique(c)
    ensures |set id | id in c && tag in c[id].tags| <= 1
  {
    var owners := set id | id in c && tag in c[id].tags;
    if owners != {} {
      var id :| id in owners;
      assert owners == {id};
    }
  }

  /** Check and insert are separate calls. Of two creations that both checked before either inserted, the second
      keeps the invariant exactly if they have no tag in common. */
  lemma OverlappingCreations(c: Collection, idA: string, a: Record, idB: string, b: Record)
    requires TagsUnique(c) && idA !in c && idB !in c && idA != idB
    requires Distinct(a.tags) && Distinct(b.tags) && AllFree(c, a.tags, None) && AllFree(c, b.tags, None)
    ensures TagsUnique(c[idA := a][idB := b]) <==> forall t | t in a.tags :: t !in b.tags
  {
    var d := c[idA := a];
    assert forall t | t in a.tags :: TagFree(c, t, None);
    assert forall t | t in b.tags :: TagFree(c, t, None);
    WriteTags(c, idA, a) by {
      assert AllFree(c, a.tags, Some(idA));
    }
    if forall t | t in a.tags :: t !in b.tags {
      assert AllFree(d, b.tags, Some(idB));
      WriteTags(d, idB, b);
    } else {
      var t :| t in a.tags && t in b.tags;
      assert t in d[idB := b][idA].tags && t in d[idB := b][idB].tags;
    }
  }
}
