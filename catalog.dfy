/**
 * The recording catalog as values: the in-memory records, the metadata
 * projection written to storage (saveRecordingsToStorage), the records
 * rebuilt from that projection at start-up, and the `find`/`filter` by id
 * that deleteRecording performs.
 */
module Catalog {
  import opened Wrappers
  import opened Payload

  /** A payload URL from URL.createObjectURL, valid until it is revoked or the page is closed. */
  type Handle = nat

  /**
   * One entry of `recordings`. A record saved in this session has a url and a
   * blob; one rebuilt from storage has neither. `size` is the payload's byte count.
   */
  datatype Recording = Recording(
    id: int, url: Option<Handle>, blob: Option<seq<Byte>>,
    duration: string, timestamp: string, quality: string, framerate: string, size: nat)

  /** The fields of a record that are written to storage: everything but url and blob. */
  datatype Metadata = Metadata(
    id: int, duration: string, timestamp: string, quality: string, framerate: string, size: nat)

  /** The metadata of a record: what remains once its url and blob are dropped. */
  function Meta(r: Recording): Metadata
  {
    Metadata(r.id, r.duration, r.timestamp, r.quality, r.framerate, r.size)
  }

  /** A record as JSON.parse gives it back: the stored fields and nothing else. */
  function FromMeta(m: Metadata): (r: Recording)
    ensures r.url == None && r.blob == None
    ensures Meta(r) == m
  {
    Recording(m.id, None, None, m.duration, m.timestamp, m.quality, m.framerate, m.size)
  }

  /**
   * Two records have the same metadata exactly when they differ at most in
   * url and blob, and restoring a record's metadata gives the record without them.
   */
  lemma MetaForgetsPayload(r1: Recording, r2: Recording)
    ensures Meta(r1) == Meta(r2) <==> r1.(url := None, blob := None) == r2.(url := None, blob := None)
    ensures FromMeta(Meta(r1)) == r1.(url := None, blob := None)
  {
  }

  /** `recordings.map(r => ({id, duration, timestamp, quality, framerate, size}))`. */
  function Project(rs: seq<Recording>): (ms: seq<Metadata>)
    ensures |ms| == |rs|
    ensures forall i :: 0 <= i < |rs| ==> ms[i] == Meta(rs[i])
  {
    if rs == [] then [] else [Meta(rs[0])] + Project(rs[1..])
  }

  /** The constructor's `JSON.parse(...) || []`: one url-less record per stored entry, in stored order. */
  function Restore(ms: seq<Metadata>): (rs: seq<Recording>)
    ensures |rs| == |ms|
    ensures forall i :: 0 <= i < |ms| ==> rs[i] == FromMeta(ms[i])
  {
    if ms == [] then [] else [FromMeta(ms[0])] + Restore(ms[1..])
  }

  /** Storing the records rebuilt from a snapshot writes back exactly that snapshot. */
  lemma RestoreRoundTrip(ms: seq<Metadata>)
    ensures Project(Restore(ms)) == ms
  {
  }

  /** Storage holds the projection of the catalog, or nothing while the catalog is empty and was never written. */
  ghost predicate Synced(rs: seq<Recording>, storage: Option<seq<Metadata>>)
  {
    storage == Some(Project(rs)) || (storage == None && rs == [])
  }

  predicate HasId(rs: seq<Recording>, id: int)
  {
    exists i :: 0 <= i < |rs| && rs[i].id == id
  }

  /** `recordings.find(r => r.id === id)`: the first record with that id, if any. */
  function Find(rs: seq<Recording>, id: int): (found: Option<Recording>)
    ensures found.None? <==> !HasId(rs, id)
    ensures found.Some? ==> exists k :: 0 <= k < |rs| && rs[k] == found.value && rs[k].id == id &&
                                        forall j :: 0 <= j < k ==> rs[j].id != id
  {
    if rs == [] then None
    else if rs[0].id == id then Some(rs[0])
    else
      var found := Find(rs[1..], id);
      assert forall i :: 0 <= i < |rs| - 1 ==> rs[1..][i] == rs[i + 1];
      found
  }

  /** `recordings.filter(r => r.id !== id)`: every record whose id differs, in the original order. */
  function RemoveId(rs: seq<Recording>, id: int): (kept: seq<Recording>)
    ensures forall x :: x in kept <==> x in rs && x.id != id
    ensures |kept| <= |rs|
  {
    if rs == [] then []
    else if rs[0].id == id then RemoveId(rs[1..], id)
    else [rs[0]] + RemoveId(rs[1..], id)
  }

  /** The filter works piecewise, so the kept records stay in their relative order. */
  lemma {:induction false} RemoveIdAppend(a: seq<Recording>, b: seq<Recording>, id: int)
    ensures RemoveId(a + b, id) == RemoveId(a, id) + RemoveId(b, id)
  {
    if a != [] {
      assert (a + b)[1..] == a[1..] + b;
      RemoveIdAppend(a[1..], b, id);
    } else {
      assert a + b == b;
    }
  }

  /**
   * A kept record at position i of the old catalog sits, in the new one,
   * right after the kept part of the records before it.
   */
  lemma RemoveIdPosition(rs: seq<Recording>, id: int, i: nat)
    requires i < |rs| && rs[i].id != id
    ensures var before := |RemoveId(rs[..i], id)|;
      before < |RemoveId(rs, id)| && RemoveId(rs, id)[before] == rs[i]
  {
    assert rs == rs[..i] + ([rs[i]] + rs[i + 1..]);
    RemoveIdAppend(rs[..i], [rs[i]] + rs[i + 1..], id);
    RemoveIdAppend([rs[i]], rs[i + 1..], id);
    assert RemoveId([rs[i]], id) == [rs[i]];
  }

  /** A catalog has the id when its first record or one of the rest has it. */
  lemma HasIdCons(rs: seq<Recording>, id: int)
    requires rs != []
    ensures HasId(rs, id) <==> rs[0].id == id || HasId(rs[1..], id)
  {
    if HasId(rs, id) && rs[0].id != id {
      var i :| 0 <= i < |rs| && rs[i].id == id;
      assert rs[1..][i - 1].id == id;
    }
    if HasId(rs[1..], id) {
      var i :| 0 <= i < |rs[1..]| && rs[1..][i].id == id;
      assert rs[i + 1].id == id;
    }
  }

  /** Nothing is removed exactly when no record has the id. */
  lemma {:induction false} RemoveIdUnchanged(rs: seq<Recording>, id: int)
    ensures RemoveId(rs, id) == rs <==> !HasId(rs, id)
  {
    if rs != [] {
      HasIdCons(rs, id);
      if rs[0].id != id {
        RemoveIdUnchanged(rs[1..], id);
        assert RemoveId(rs, id) == [rs[0]] + RemoveId(rs[1..], id);
        assert RemoveId(rs, id) == rs <==> RemoveId(rs[1..], id) == rs[1..];
      } else {
        assert |RemoveId(rs, id)| <= |rs[1..]| < |rs|;
      }
    }
  }

  /** After the filter no record has the id, so a second delete of it finds nothing and removes nothing. */
  lemma DeleteTwice(rs: seq<Recording>, id: int)
    ensures !HasId(RemoveId(rs, id), id)
    ensures Find(RemoveId(rs, id), id) == None
    ensures RemoveId(RemoveId(rs, id), id) == RemoveId(rs, id)
  {
    var kept := RemoveId(rs, id);
    forall i | 0 <= i < |kept| ensures kept[i].id != id {
      assert kept[i] in kept;
    }
    RemoveIdUnchanged(kept, id);
  }

  /** Every record that has a url holds a live one. */
  ghost predicate UrlsLive(rs: seq<Recording>, live: set<Handle>)
  {
    forall i :: 0 <= i < |rs| && rs[i].url.Some? ==> rs[i].url.value in live
  }

  /** No two records share a url. */
  ghost predicate UrlsDistinct(rs: seq<Recording>)
  {
    forall i, j {:trigger rs[i].url, rs[j].url} :: 0 <= i < j < |rs| && rs[i].url.Some? ==> rs[i].url != rs[j].url
  }

  /** The url `revokeObjectURL` is called on for a find result. */
  function Revoked(found: Option<Recording>): (hs: set<Handle>)
    ensures |hs| <= 1
    ensures forall h :: h in hs <==> found.Some? && found.value.url == Some(h)
  {
    if found.Some? && found.value.url.Some? then {found.value.url.value} else {}
  }

  lemma {:induction false} RemoveIdKeepsDistinct(rs: seq<Recording>, id: int)
    requires UrlsDistinct(rs)
    ensures UrlsDistinct(RemoveId(rs, id))
  {
    if rs != [] {
      var rest := rs[1..];
      assert UrlsDistinct(rest) by {
        forall i, j | 0 <= i < j < |rest| && rest[i].url.Some?
          ensures rest[i].url != rest[j].url
        {
          assert rs[i + 1] == rest[i] && rs[j + 1] == rest[j];
        }
      }
      RemoveIdKeepsDistinct(rest, id);
      if rs[0].id != id && rs[0].url.Some? {
        var k := RemoveId(rest, id);
        var all := [rs[0]] + k;
        forall j | 0 < j < |all| ensures rs[0].url != all[j].url {
          assert all[j] == k[j - 1] && k[j - 1] in k;
          var p :| 0 <= p < |rest| && rest[p] == all[j];
          assert rs[p + 1] == all[j];
        }
      }
    }
  }

  /**
   * Deleting revokes at most the url of the first match, yet every record
   * that remains still has a live url of its own: the revoked url belonged to
   * a removed record and urls are not shared.
   */
  lemma DeleteKeepsUrlsLive(rs: seq<Recording>, live: set<Handle>, id: int)
    requires UrlsLive(rs, live) && UrlsDistinct(rs)
    ensures UrlsDistinct(RemoveId(rs, id))
    ensures UrlsLive(RemoveId(rs, id), live - Revoked(Find(rs, id)))
  {
    RemoveIdKeepsDistinct(rs, id);
    var kept := RemoveId(rs, id);
    var found := Find(rs, id);
    forall i | 0 <= i < |kept| && kept[i].url.Some?
      ensures kept[i].url.value in live - Revoked(found)
    {
      assert kept[i] in kept;
      var p :| 0 <= p < |rs| && rs[p] == kept[i];
      if found.Some? {
        var k :| 0 <= k < |rs| && rs[k] == found.value && rs[k].id == id &&
                 forall j :: 0 <= j < k ==> rs[j].id != id;
        assert p != k;
        if p < k { assert rs[p].url != rs[k].url; } else { assert rs[k].url.Some? ==> rs[k].url != rs[p].url; }
      }
    }
  }

  /** Every url in the catalog is below `bound`. */
  ghost predicate UrlsBelow(rs: seq<Recording>, bound: Handle)
  {
    forall i :: 0 <= i < |rs| && rs[i].url.Some? ==> rs[i].url.value < bound
  }

  /** Putting a record with a fresh url in front keeps the urls distinct. */
  lemma PrependFresh(rec: Recording, rs: seq<Recording>, bound: Handle)
    requires UrlsDistinct(rs) && UrlsBelow(rs, bound) && rec.url == Some(bound)
    ensures UrlsDistinct([rec] + rs)
  {
    var all := [rec] + rs;
    forall i, j | 0 <= i < j < |all| && all[i].url.Some? ensures all[i].url != all[j].url {
      if i > 0 { assert all[i] == rs[i - 1] && all[j] == rs[j - 1]; }
      else { assert all[j] == rs[j - 1]; }
    }
  }
}
