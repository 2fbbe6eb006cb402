/**
 * CustomStackRenderer: a stack renderer that decorates the tab of a dirty
 * part and appends a "changes pending" marker to the tab folder.
 */
module Renderers {
  import opened Wrappers
  import opened Ui
  import opened Decoration

  class CustomStackRenderer {
    /** The folder the last dirty update appended its marker to; null until then. */
    var ctf: TabFolder?
    /** The font of the tab last decorated, before decoration. */
    var oldFont: Option<Font>
    /** The background of that tab's control, before decoration. */
    var oldBgColor: Option<Color>

    /** Java initialises all three fields to null. */
    constructor ()
      ensures ctf == null && oldFont == None && oldBgColor == None
    {
      ctf := null;
      oldFont := None;
      oldBgColor := None;
    }

    /**
     * createWidget returns the folder the base renderer created. The folder
     * is held in a local that shadows the field, so the field ctf is not set.
     */
    method CreateWidget(created: TabFolder) returns (r: TabFolder)
      ensures r == created
      ensures ctf == old(ctf)
    {
      var ctf := created;
      r := ctf;
    }

    /** The renderer's state as seen from an update of a tab of `folder`. */
    ghost function View(folder: TabFolder): Snapshot
      reads this, folder, ctf
    {
      var remembered :=
        if ctf == null then Unset
        else if ctf == folder then Same
        else Other(ctf.State());
      Snapshot(folder.State(), remembered, oldFont, oldBgColor)
    }

    /**
     * updateTab for the item at position `index` of `folder`, the part behind
     * it being `part`. The requires clauses exclude the exceptions the code
     * raises on the modelled state: a null control, and in the clean branch
     * a null ctf, a ctf without items, the tab itself being ctf's last item,
     * and a null label. Folders are never disposed here, so the exception a
     * disposed ctf would raise is outside the model.
     */
    method UpdateTab(folder: TabFolder, index: nat, part: Part)
      requires index < |folder.items|
      requires folder.items[index].control.Control?
      requires !part.dirty ==>
        && ctf != null
        && |ctf.items| > 0
        && (ctf == folder ==> index < |folder.items| - 1)
        && part.localizedLabel.Some?
      modifies this, folder, if part.dirty then {} else {ctf}
      ensures Update(old(View(folder)), index, part) == Success(View(folder))
      ensures part.dirty ==> ctf == folder
      ensures !part.dirty ==> ctf == old(ctf)
    {
      if part.dirty {
        ghost var before := View(folder);
        folder.SetText(index, LabelText(part.localizedLabel));
        oldFont := folder.items[index].font;
        folder.SetFont(index, Some(DecorationFont));
        oldBgColor := folder.items[index].control.background;
        folder.SetControlBackground(index, Some(Black));
        ctf := folder;
        var count := |ctf.items|;
        ctf.CreateItem(count);
        ctf.SetText(count, MarkerText);
        ctf.SetSimple(false);
        ghost var t := before.folder.items[index];
        assert folder.items == before.folder.items[index := Decorated(t, part.localizedLabel)] + [MarkerItem(count)];
        assert View(folder) == MarkDirty(before, index, part.localizedLabel).value;
      } else {
        ghost var before := View(folder);
        ghost var last := |ctf.items| - 1;
        ctf.DisposeItem(|ctf.items| - 1);
        folder.SetFont(index, oldFont);
        folder.SetControlBackground(index, oldBgColor);
        folder.SetText(index, part.localizedLabel.value);
        ctf.SetSimple(true);
        ghost var t := before.folder.items[index];
        ghost var restored := t.(text := part.localizedLabel.value, font := oldFont, control := Control(oldBgColor));
        if ctf == folder {
          assert folder.items == before.folder.items[..last][index := restored];
        } else {
          assert folder.items == before.folder.items[index := restored];
          assert ctf.items == before.ctf.folder.items[..last];
        }
      }
    }
  }

  /**
   * A dirty update directly followed by a clean update of the same tab, on
   * the objects: the first call sets up what the second one needs, and the
   * folder gets its items back with the tab's former font and background.
   */
  method DirtyThenClean(r: CustomStackRenderer, folder: TabFolder, index: nat, dirtyLabel: Option<string>, caption: string)
    requires index < |folder.items| && folder.items[index].control.Control?
    modifies r, folder
    ensures folder.items == old(folder.items[index := folder.items[index].(text := caption)])
    ensures folder.simple && r.ctf == folder
    ensures r.oldFont == old(folder.items[index].font)
    ensures r.oldBgColor == old(folder.items[index].control.background)
  {
    ghost var before := r.View(folder);
    r.UpdateTab(folder, index, Part(dirtyLabel, true));
    r.UpdateTab(folder, index, Part(Some(caption), false));
    DirtyThenCleanRestores(before, index, dirtyLabel, caption);
  }
}
