/** The clip list (src/components/ClipList.tsx): one row per clip, in list order,
    marking the active clip and offering deletion for every clip not named like the
    whole-video clip. */
module ClipList {
  import opened Types
  import ClipsStore

  /** A rendered row: its clip (also what its play button passes to `onSelect`),
      whether it is highlighted and whether its delete button is shown. */
  datatype Row = Row(clip: Clip, active: bool, deletable: bool)

  /** Either the "no clips" message or the rows. */
  datatype View = NoClips | Rows(rows: seq<Row>)

  function RowsOf(clips: seq<Clip>, activeClipId: Option<string>): (rows: seq<Row>)
    ensures |rows| == |clips|
    ensures forall i :: 0 <= i < |clips| ==> rows[i].clip == clips[i]
    ensures forall i :: 0 <= i < |clips| ==>
      (rows[i].active <==> activeClipId == Some(clips[i].id))
    ensures forall i :: 0 <= i < |clips| ==>
      (rows[i].deletable <==> clips[i].name != DefaultClipName)
  {
    if clips == [] then []
    else
      var c := clips[0];
      [Row(c, activeClipId == Some(c.id), c.name != DefaultClipName)] + RowsOf(clips[1..], activeClipId)
  }

  function ListView(clips: seq<Clip>, activeClipId: Option<string>): (v: View)
    ensures v.NoClips? <==> clips == []
    ensures v.Rows? ==> v.rows == RowsOf(clips, activeClipId)
  {
    if |clips| == 0 then NoClips else Rows(RowsOf(clips, activeClipId))
  }

  /** The argument the row's delete button passes to `onDelete`, if the button is shown. */
  function DeletePayload(row: Row): (id: Option<string>)
    ensures id.Some? <==> row.deletable
    ensures id.Some? ==> id.value == row.clip.id
  {
    if row.deletable then Some(row.clip.id) else None
  }

  ghost predicate UniqueIds(clips: seq<Clip>) {
    forall i, j :: 0 <= i < j < |clips| ==> clips[i].id != clips[j].id
  }

  /** With unique ids at most one row is highlighted, and one is exactly when the
      active id belongs to some clip. */
  lemma AtMostOneActive(clips: seq<Clip>, activeClipId: Option<string>)
    requires UniqueIds(clips)
    ensures var rows := RowsOf(clips, activeClipId);
      forall i, j :: 0 <= i < |rows| && 0 <= j < |rows| && rows[i].active && rows[j].active ==> i == j
    ensures (exists i :: 0 <= i < |clips| && RowsOf(clips, activeClipId)[i].active)
      <==> activeClipId.Some? && exists c :: c in clips && c.id == activeClipId.value
  {
  }

  /** Deletion is keyed on the name only. */
  lemma DeletableByName(clips: seq<Clip>, activeClipId: Option<string>, i: nat)
    requires i < |clips|
    ensures var row := RowsOf(clips, activeClipId)[i];
      DeletePayload(row).Some? <==> clips[i].name != DefaultClipName
  {
  }

  /** A renamed "full" clip gets a delete button; a user clip named like the whole
      video does not. */
  method DeleteButtonsByName()
  {
    var renamedFull := Clip(FullClipId, "Intro", 0.0, 1.0);
    var namedLikeFull := Clip("user-id", DefaultClipName, 2.0, 3.0);
    var rows := RowsOf([renamedFull, namedLikeFull], None);
    assert DeletePayload(rows[0]) == Some(FullClipId);
    assert DeletePayload(rows[1]) == None;
  }

  /** A delete pressed on row `i` removes that row's clip from the store's list, and
      every clip with another id stays. */
  lemma {:induction false} DeleteFromRow(clips: seq<Clip>, activeClipId: Option<string>, i: nat)
    requires i < |clips|
    requires DeletePayload(RowsOf(clips, activeClipId)[i]).Some?
    ensures var id := DeletePayload(RowsOf(clips, activeClipId)[i]).value;
      && clips[i] !in ClipsStore.WithoutId(clips, id)
      && (forall c :: c in clips && c.id != clips[i].id ==> c in ClipsStore.WithoutId(clips, id))
      && |ClipsStore.WithoutId(clips, id)| < |clips|
  {
    var id := DeletePayload(RowsOf(clips, activeClipId)[i]).value;
    ClipsStore.DeleteChangesIffPresent(clips, id);
    assert clips[i] in clips;
  }
}
