# Dirty-tab decorator of the e4 custom stack renderer

`CustomStackRenderer` extends the Eclipse e4 `StackRenderer`. Each time an
attribute of a part shown in a tab changes, its `updateTab` looks at the
part's dirty flag:

- **dirty**: the tab gets the part's label, italic Calibri 10 and a black
  control background. The tab's former font and background go into the
  fields `oldFont` and `oldBgColor`. The field `ctf` is set to the tab's
  folder. A marker item with the text `<-- changes pending` is appended to
  that folder, and the folder is switched to non-simple style.
- **clean**: the last item of the folder in `ctf` is disposed. The tab gets
  back the remembered font and background and the label, and the folder in
  `ctf` is switched to simple style.

The model has four modules:

- `Wrappers` holds `Option` (Java's null) and `Result` (an update that
  ends in an exception).
- `Ui` abstracts SWT and the e4 part.
  - Fonts and colours are plain values.
  - A `CTabItem` is a `TabItem` record: text, font, control background,
    style bits.
  - `TabFolder` is a class whose item sequence and `simple` flag are changed
    in place by setter methods shaped like SWT's.
  - `Part` carries the localized label and the dirty flag.
- `Decoration` is the decorator as a state machine over values.
  - A `Snapshot` holds the tab's folder, what `ctf` refers to (nothing, the
    same folder, or another folder with its items) and the two remembered
    values.
  - `MarkDirty` and `MarkClean` are the two branches. Each returns the new
    snapshot or the exception the code would raise.
  - Lemmas cover the round trip, repeated dirty updates, two tabs that share
    the memory, and a repeated clean update.
- `Renderers` holds the class `CustomStackRenderer` with the fields `ctf`,
  `oldFont` and `oldBgColor`.
  - Its `UpdateTab` performs the Java statements in order on the objects.
    It is proved to leave exactly the state that `Decoration.Update`
    computes from the state before the call.
  - `DirtyThenClean` shows the round trip on the objects.

A tab is addressed by its folder and its position in that folder
(`cti.getParent()` and the item's index).

Behaviour of the code worth knowing:

- Until a dirty update has run, `ctf` is null: the `ctf` in `createWidget`
  (line 22) is a local that hides the field. A clean update in that state
  throws a NullPointerException on line 46, before anything is restored.
- On line 46, `getItem(getItemCount() - 1)` throws when the folder in `ctf`
  has no items.
- When the tab being cleaned is itself the last item of `ctf`, line 46
  disposes it, and the `setFont` call on line 47 throws because the widget
  is disposed.
- On line 40, `new CTabItem(ctf, ctf.getItemCount())` calls SWT's
  two-argument constructor `(parent, style)`. The item goes to the end of
  the folder, and the count becomes the item's style bits. The model records
  that style.
- On line 32, `"" + part.getLocalizedLabel() + ""` turns a null label into
  the text `null`. On line 49 the label goes to `setText` as it is, and SWT
  refuses a null text there.

## Model

| member | source | states |
|---|---|---|
| Renderers.CustomStackRenderer.constructor | org.eclipse.e4.renderers.custom/src/org/eclipse/e4/renderers/custom/renderers/CustomStackRenderer.java:15-17 | `ctf`, `oldFont` and `oldBgColor` start out null |
| Renderers.CustomStackRenderer.CreateWidget | org.eclipse.e4.renderers.custom/src/org/eclipse/e4/renderers/custom/renderers/CustomStackRenderer.java:20-25 | returns the folder the base renderer created and leaves the field `ctf` as it was, because the local on line 22 shadows it |
| Renderers.CustomStackRenderer.UpdateTab | org.eclipse.e4.renderers.custom/src/org/eclipse/e4/renderers/custom/renderers/CustomStackRenderer.java:28-53 | requires the absence of the exceptions the code can raise on the modelled state (a folder is never disposed in the model). The new state of the renderer, the tab's folder and the folder in `ctf` is what `Decoration.Update` gives for the old state. After a dirty update `ctf` is the tab's folder; after a clean one `ctf` is unchanged |
| Renderers.DirtyThenClean | org.eclipse.e4.renderers.custom/src/org/eclipse/e4/renderers/custom/renderers/CustomStackRenderer.java:31-50 | a dirty update followed by a clean update of the same tab always meets the clean update's preconditions. Afterwards the folder has its former items, the tab has its former font and background and the new label, the folder is simple, and the memory holds the tab's pre-dirty look |
| Decoration.MarkDirty | org.eclipse.e4.renderers.custom/src/org/eclipse/e4/renderers/custom/renderers/CustomStackRenderer.java:31-43 | fails (NullPointerException) exactly when the tab has no control. Otherwise the folder has one item more: the marker `<-- changes pending` at the end, with the former count as its style. Every other item keeps its place. The tab shows the label (null as `null`), italic Calibri 10 and black. `ctf` is the tab's folder, which is non-simple. `oldFont` and `oldBgColor` are the tab's font and background from before the call |
| Decoration.MarkClean | org.eclipse.e4.renderers.custom/src/org/eclipse/e4/renderers/custom/renderers/CustomStackRenderer.java:45-51 | fails with NullPointerException when `ctf` is null, with an invalid range when `ctf`'s folder is empty, and with a disposed widget when the tab is that folder's last item. Past those checks, a missing control is a NullPointerException and a null label is SWT's null-argument error. On the modelled state, where no folder is disposed, it succeeds exactly when none of these holds. Then the last item of `ctf`'s folder, and only that one, is gone, and that folder is simple. The tab has the remembered font and background and the label. The memory is unchanged |
| Decoration.DirtyTimes | org.eclipse.e4.renderers.custom/src/org/eclipse/e4/renderers/custom/renderers/CustomStackRenderer.java:31-43 | n dirty updates in a row append n markers, with styles m to m+n-1, after the existing m items. They leave the other items alone and keep the tab decorated. From the second update on, the memory holds italic Calibri 10 and black instead of the tab's own look: nothing guards against a repeated dirty update |
| Decoration.DirtyThenCleanRestores | org.eclipse.e4.renderers.custom/src/org/eclipse/e4/renderers/custom/renderers/CustomStackRenderer.java:33-50 | a dirty update directly followed by a clean update of the same tab returns the folder's item list, with the tab's font and background exactly as before and its text set to the label. The folder is simple, `ctf` is that folder and the memory holds the tab's pre-dirty font and background |
| Decoration.RepeatedDirtyThenClean | org.eclipse.e4.renderers.custom/src/org/eclipse/e4/renderers/custom/renderers/CustomStackRenderer.java:31-50 | after n >= 2 dirty updates and one clean update, n-1 markers stay in the folder and the tab keeps the decoration font and background. The clean update restores the decorated look, not the original |
| Decoration.InterleavedTabsShareMemory | org.eclipse.e4.renderers.custom/src/org/eclipse/e4/renderers/custom/renderers/CustomStackRenderer.java:33-50 | tab i dirty, then tab j dirty, then tab i clean: the marker appended for j is the one disposed, while i's marker stays. Tab i takes j's former font and background. Tab j stays decorated, yet the folder turns simple |
| Decoration.CleanTwiceDisposesPaneTab | org.eclipse.e4.renderers.custom/src/org/eclipse/e4/renderers/custom/renderers/CustomStackRenderer.java:46 | a second clean update after a dirty/clean pair disposes the folder's last real tab. When that tab is the one being updated, the update fails with a disposed widget |
| Decoration.Update | org.eclipse.e4.renderers.custom/src/org/eclipse/e4/renderers/custom/renderers/CustomStackRenderer.java:31-52 | picks the dirty or clean branch by the part's dirty flag. On success `ctf` refers to a folder, whose style is simple exactly after a clean update. A dirty update adds one item to the tab's folder, and a clean update removes one from `ctf`'s folder |
| Ui.TabFolder.SetText | org.eclipse.e4.renderers.custom/src/org/eclipse/e4/renderers/custom/renderers/CustomStackRenderer.java:32 | `setText` on the item at an index changes that item's text and nothing else in the folder (also used for lines 41 and 49) |
| Ui.TabFolder.SetFont | org.eclipse.e4.renderers.custom/src/org/eclipse/e4/renderers/custom/renderers/CustomStackRenderer.java:35-36 | `setFont` on the item at an index changes that item's font and nothing else in the folder (also used for line 47) |
| Ui.TabFolder.SetControlBackground | org.eclipse.e4.renderers.custom/src/org/eclipse/e4/renderers/custom/renderers/CustomStackRenderer.java:38 | `getControl().setBackground` on the item at an index, which must have a control, sets that control's background and changes nothing else (also used for line 48) |
| Ui.TabFolder.SetSimple | org.eclipse.e4.renderers.custom/src/org/eclipse/e4/renderers/custom/renderers/CustomStackRenderer.java:42 | `setSimple` sets the folder's style flag and keeps its items (also used for line 50) |
| Ui.TabFolder.CreateItem | org.eclipse.e4.renderers.custom/src/org/eclipse/e4/renderers/custom/renderers/CustomStackRenderer.java:40 | `new CTabItem(folder, style)` appends an item with empty text, no font and no control at the end of the folder. The earlier items and the style flag are unchanged |
| Ui.TabFolder.DisposeItem | org.eclipse.e4.renderers.custom/src/org/eclipse/e4/renderers/custom/renderers/CustomStackRenderer.java:46 | disposing the item at an index removes that item and keeps every other item in order |

## Left out

- `super.updateTab` (line 30) and `super.createWidget` (line 22) belong to the e4 `StackRenderer`, which is not part of this model. The base update is taken to change none of the modelled state. The tab text it sets is overwritten in both branches anyway. The arguments `attName` and `newValue` only go to the base update, so `UpdateTab` does not take them.
- SWT's resources are left out: the `Device`, the construction of the `Font` and `Color` objects on lines 34-38, their disposal and the leak of one font and one colour per dirty update. A font is its description and a colour its components.
- A font or background set to null is `None`. SWT would answer `getFont()` and `getBackground()` for such an item with the folder's font or the control's default colour. The model keeps the attribute as set, so it cannot tell an inherited value from an explicit one.
- The drawing effect of `setSimple` is left out; the style is a boolean. The close button that style bits which happen to include SWT.CLOSE would give the marker is left out too.
- Tab item identity is left out. A tab is its folder and position, so an item that moves between the host's calls is outside the model.
- The host passes only items that are in a folder and not disposed. `UpdateTab` requires the index to be inside the folder.
- `UpdateTab`, `MarkClean`: a folder is never disposed in the model. When the host has disposed the folder that `ctf` still refers to (for example by closing that stack), a later clean update calls methods on a disposed `CTabFolder` and SWT throws its widget-disposed error, at the latest at `setSimple(true)` on line 50. That error is not modelled: `MarkClean` succeeds there and `UpdateTab` allows the call.
- When an update throws, the effects of the statements that ran before the throw are not modelled. `Decoration` returns the exception alone, and `UpdateTab` requires that no exception happens.
- The UI thread and the host's event delivery are left out: an update is one sequential call.
- A memory per part and finding the marker by identity do not exist in the code and are not modelled.
