/** The in-memory clip store (src/store/clipsStore.ts): one ordered list of clips and
    three actions that replace it, append to it and drop clips by id. */
module ClipsStore {
  import opened Types
  import opened Seqs

  /** The list `deleteClip(clipId)` leaves behind: every clip whose id differs, in order. */
  function WithoutId(clips: seq<Clip>, clipId: string): (r: seq<Clip>)
    ensures forall c :: c in r <==> c in clips && c.id != clipId
    ensures forall c: Clip :: c.id != clipId ==> multiset(r)[c] == multiset(clips)[c]
  {
    Filter(clips, (c: Clip) => c.id != clipId)
  }

  /** The store object. Its single field is reassigned, never updated in place. */
  class Store {
    var clips: seq<Clip>

    constructor ()
      ensures clips == []
    {
      clips := [];
    }

    method SetClips(newClips: seq<Clip>)
      modifies this
      ensures clips == newClips
    {
      clips := newClips;
    }

    /** Appends without looking at the clip: duplicate ids and empty ranges are kept. */
    method AddClip(clip: Clip)
      modifies this
      ensures |clips| == |old(clips)| + 1
      ensures clips[..|old(clips)|] == old(clips)
      ensures clips[|clips| - 1] == clip
    {
      clips := clips + [clip];
    }

    method DeleteClip(clipId: string)
      modifies this
      ensures clips == WithoutId(old(clips), clipId)
    {
      clips := WithoutId(clips, clipId);
    }
  }

  /** Deleting keeps the relative order of the remaining clips. */
  lemma DeleteKeepsOrder(clips: seq<Clip>, clipId: string)
    ensures IsSubseq(WithoutId(clips, clipId), clips)
  {
    FilterIsSubseq(clips, (c: Clip) => c.id != clipId);
  }

  /** Deleting an id no clip carries changes nothing; deleting one that some clip
      carries shortens the list. The sentinel id gets no special treatment. */
  lemma DeleteChangesIffPresent(clips: seq<Clip>, clipId: string)
    ensures WithoutId(clips, clipId) == clips <==> forall c :: c in clips ==> c.id != clipId
    ensures |WithoutId(clips, clipId)| < |clips| <==> exists c :: c in clips && c.id == clipId
  {
    FilterKeepsAllIff(clips, (c: Clip) => c.id != clipId);
  }

  lemma DeleteIdempotent(clips: seq<Clip>, clipId: string)
    ensures WithoutId(WithoutId(clips, clipId), clipId) == WithoutId(clips, clipId)
  {
    FilterIdempotent(clips, (c: Clip) => c.id != clipId);
  }

  /** The clip with id "full" is removed like any other. */
  lemma DeleteRemovesFullClip(clips: seq<Clip>)
    requires exists c :: c in clips && c.id == FullClipId
    ensures |WithoutId(clips, FullClipId)| < |clips|
    ensures forall c :: c in WithoutId(clips, FullClipId) ==> c.id != FullClipId
  {
    DeleteChangesIffPresent(clips, FullClipId);
  }
}
