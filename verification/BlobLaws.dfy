/** What single calls on a blob store answer and leave, said of its images themselves. */
module BlobLaws {
  import opened Keys
  import opened Versions
  import opened BlobSpec

  /** Reads change nothing. A card's versions are listed in ascending order, each once;
      a version exists if its image is held; the cards listed are those with an image,
      or with pblob with a thumbnail. sqlblob lists no versions and answers an error
      for identifiers it refuses. */
  lemma ReadsAnswer(be: Backend, st: State, rid: RID, v: Version)
    ensures var versions := Leaf(be, st, Call.Versions(rid));
            && versions.state == st && |versions.answers| == 1 && versions.answers[0].VersionList?
            && Ascending(versions.answers[0].versions)
            && forall w: Version :: w in versions.answers[0].versions <==> (rid, w) in st.cards && Accepts(be, rid)
    ensures var found := Leaf(be, st, VersionExists(rid, v));
            && found.state == st
            && found.answers == (if !Accepts(be, rid) then [ReadError]
                                 else if (rid, v) in st.cards then [Exists(true)] else [Exists(false)])
    ensures var all := Leaf(be, st, ListRIDs);
            && all.state == st && |all.answers| == 1 && all.answers[0].RidList? && Ascending(all.answers[0].rids)
            && forall r: RID :: r in all.answers[0].rids <==>
                 (exists w: Version :: (r, w) in st.cards) || (be.Pebble? && r in st.thumbs)
  {
    var versions := Listed(VersionsOf(st, rid));
    forall w: Version ensures w in versions <==> (rid, w) in st.cards {
      assert w in versions <==> w in Elements(versions);
    }
    var rids := Listed(RidsOf(be, st));
    forall r: RID
      ensures r in rids <==> (exists w: Version :: (r, w) in st.cards) || (be.Pebble? && r in st.thumbs)
    {
      assert r in rids <==> r in Elements(rids);
      CardsOf(st, r);
    }
  }

  lemma CardsOf(st: State, r: RID)
    ensures r in (set p | p in st.cards :: p.0) <==> exists w: Version :: (r, w) in st.cards
  {
    if w: Version :| (r, w) in st.cards {
      assert (r, w).0 in (set p | p in st.cards :: p.0);
    }
    if r in (set p | p in st.cards :: p.0) {
      var p :| p in st.cards && p.0 == r;
      assert (r, p.1) in st.cards;
    }
  }

  /** Deleting a range of versions removes exactly the images in the half-open interval,
      deleting a card all its images and its thumbnail; nothing else changes. */
  lemma DeletesLeave(be: Backend, st: State, rid: RID, lower: Version, upper: Version)
    requires Accepts(be, rid)
    ensures var r := Leaf(be, st, DeleteVersions(rid, lower, upper));
            && r.outcome.Done? && r.state.thumbs == st.thumbs
            && (forall p :: p in r.state.cards <==> p in st.cards && !(p.0 == rid && lower <= p.1 < upper))
            && (forall p :: p in r.state.cards ==> r.state.cards[p] == st.cards[p])
    ensures var r := Leaf(be, st, Delete(rid));
            && r.outcome.Done?
            && (forall p :: p in r.state.cards <==> p in st.cards && p.0 != rid)
            && (forall p :: p in r.state.cards ==> r.state.cards[p] == st.cards[p])
            && (forall q :: q in r.state.thumbs <==> q in st.thumbs && q != rid)
            && (forall q :: q in r.state.thumbs ==> r.state.thumbs[q] == st.thumbs[q])
  {
    forall p | p in st.cards && p.0 == rid ensures p.1 in VersionsOf(st, rid) {
    }
  }

  /** sqlblob refuses to delete what it cannot hold, and leaves everything as it is. */
  lemma RefusedDeletes(be: Backend, st: State, rid: RID, lower: Version, upper: Version)
    requires !Accepts(be, rid)
    ensures Leaf(be, st, DeleteVersions(rid, lower, upper)).state == st == Leaf(be, st, Delete(rid)).state
    ensures Leaf(be, st, DeleteVersions(rid, lower, upper)).outcome.Failed?
    ensures Leaf(be, st, Delete(rid)).outcome.Failed?
  {
  }

  /** What has just been put is there to be read, unless sqlblob has dropped it as too
      old; a put that fails outside a transaction leaves the store as it was. */
  lemma PutThenRead(be: Backend, st: State, rid: RID, v: Version, up: Upload)
    requires be.max >= 1
    ensures var r := Outside(be, st, PutCard(rid, v, up));
            && (!r.outcome.Done? ==> r.state == st)
            && (r.outcome.Done? ==>
                  && Storable(up) && Accepts(be, rid)
                  && rid in r.state.thumbs && r.state.thumbs[rid] == up.thumbnail.value
                  && ((rid, v) in r.state.cards <==> v in Kept(be, VersionsOf(st, rid), v))
                  && ((rid, v) in r.state.cards ==> r.state.cards[(rid, v)] == up.card))
  {
    if Put(be, st, rid, v, up).1.Done? {
      PutOutcome(be, st, rid, v, up);
      PutKeeps(be, st, rid, v, up);
      PutFrame(be, st, rid, v, up);
    }
  }
}
