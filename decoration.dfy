/**
 * The dirty-tab decoration of CustomStackRenderer.updateTab as a state
 * machine over values: the folder of the tab being updated, the folder the
 * field ctf refers to, and the one remembered (font, background) pair.
 */
module Decoration {
  import opened Wrappers
  import opened Ui

  /** The text of the marker item appended on a dirty update. */
  const MarkerText: string := "<-- changes pending"

  /** The decoration font: italic Calibri 10. */
  const DecorationFont: Font := Font("Calibri", 10, Italic)

  /** The decoration background: the colour (0, 0, 0). */
  const Black: Color := Rgb(0, 0, 0)

  /** The exceptions an update can raise. */
  datatype Fault =
    | NullPointer     // ctf or the tab's control is null
    | InvalidRange    // getItem(-1) on a folder without items
    | WidgetDisposed  // the tab itself was the item just disposed
    | NullArgument    // setText(null) with a null label

  /** What the field ctf refers to, seen from the folder of the tab being updated. */
  datatype Remembered = Unset | Same | Other(folder: FolderState)

  /**
   * The renderer's state as seen by one update: the tab's own folder, the
   * folder ctf refers to, and the fields oldFont and oldBgColor.
   */
  datatype Snapshot = Snapshot(folder: FolderState, ctf: Remembered, oldFont: Option<Font>, oldBgColor: Option<Color>)

  /** The text that "" + label + "" yields: Java writes a null label as "null". */
  function LabelText(caption: Option<string>): (text: string) {
    if caption.Some? then caption.value else "null"
  }

  /** The item appended on a dirty update to a folder that had `count` items. */
  function MarkerItem(count: nat): (marker: TabItem) {
    TabItem(MarkerText, None, NoControl, count)
  }

  /** The folder that ctf refers to. */
  function RememberedFolder(s: Snapshot): (f: FolderState)
    requires !s.ctf.Unset?
  {
    if s.ctf.Same? then s.folder else s.ctf.folder
  }

  /** The tab item t as a dirty update leaves it: the label, italic Calibri 10, a black background. */
  function Decorated(t: TabItem, caption: Option<string>): (d: TabItem) {
    TabItem(LabelText(caption), Some(DecorationFont), Control(Some(Black)), t.style)
  }

  /** The dirty branch of updateTab, for the tab at position i of its folder. */
  function MarkDirty(s: Snapshot, i: nat, caption: Option<string>): (r: Result<Snapshot, Fault>)
    requires i < |s.folder.items|
    ensures r.Success? <==> s.folder.items[i].control.Control?
    ensures r.Failure? ==> r.error == NullPointer
    ensures r.Success? ==>
      var n, t, after := |s.folder.items|, s.folder.items[i], r.value.folder.items;
      // one item more, the marker, at the end; the others keep their place
      && |after| == n + 1
      && after[n] == MarkerItem(n)
      && (forall k | 0 <= k < n && k != i :: after[k] == s.folder.items[k])
      // the tab shows the label, the decoration font and the black background
      && after[i] == Decorated(t, caption)
      // ctf is the tab's folder, now non-simple; the memory holds the tab's former look
      && r.value.ctf == Same
      && !r.value.folder.simple
      && r.value.oldFont == t.font
      && r.value.oldBgColor == t.control.background
  {
    var t := s.folder.items[i];
    if t.control.NoControl? then
      Failure(NullPointer)
    else
      var items := s.folder.items[i := Decorated(t, caption)];
      Success(Snapshot(FolderState(items + [MarkerItem(|items|)], false), Same, t.font, t.control.background))
  }

  /** The clean branch of updateTab, for the tab at position i of its folder. */
  function MarkClean(s: Snapshot, i: nat, caption: Option<string>): (r: Result<Snapshot, Fault>)
    requires i < |s.folder.items|
    ensures s.ctf.Unset? ==> r == Failure(NullPointer)
    ensures s.ctf.Other? && |s.ctf.folder.items| == 0 ==> r == Failure(InvalidRange)
    ensures s.ctf.Same? && i == |s.folder.items| - 1 ==> r == Failure(WidgetDisposed)
    ensures
      && !s.ctf.Unset?
      && |RememberedFolder(s).items| > 0
      && !(s.ctf.Same? && i == |s.folder.items| - 1)
      && s.folder.items[i].control.NoControl?
      ==> r == Failure(NullPointer)
    ensures
      && !s.ctf.Unset?
      && |RememberedFolder(s).items| > 0
      && !(s.ctf.Same? && i == |s.folder.items| - 1)
      && s.folder.items[i].control.Control?
      && caption.None?
      ==> r == Failure(NullArgument)
    ensures r.Success? <==>
      && !s.ctf.Unset?
      && |RememberedFolder(s).items| > 0
      && !(s.ctf.Same? && i == |s.folder.items| - 1)
      && s.folder.items[i].control.Control?
      && caption.Some?
    ensures r.Success? ==>
      var n, t, after := |s.folder.items|, s.folder.items[i], r.value.folder.items;
      // the memory is read, not changed
      && r.value.oldFont == s.oldFont
      && r.value.oldBgColor == s.oldBgColor
      // the tab gets the remembered font and background and the label
      && i < |after|
      && after[i] == TabItem(caption.value, s.oldFont, Control(s.oldBgColor), t.style)
      && (s.ctf.Same? ==>
            // the last item of the tab's own folder goes; the rest stay
            && r.value.ctf == Same
            && |after| == n - 1
            && (forall k | 0 <= k < n - 1 && k != i :: after[k] == s.folder.items[k])
            && r.value.folder.simple)
      && (s.ctf.Other? ==>
            // the last item of the other folder goes, and that folder becomes simple
            && r.value.ctf == Other(FolderState(s.ctf.folder.items[..|s.ctf.folder.items| - 1], true))
            && |after| == n
            && (forall k | 0 <= k < n && k != i :: after[k] == s.folder.items[k])
            && r.value.folder.simple == s.folder.simple)
  {
    if s.ctf.Unset? then
      Failure(NullPointer)
    else
      var strip := RememberedFolder(s);
      if |strip.items| == 0 then
        Failure(InvalidRange)
      else if s.ctf.Same? && i == |strip.items| - 1 then
        Failure(WidgetDisposed)
      else if s.folder.items[i].control.NoControl? then
        Failure(NullPointer)
      else if caption.None? then
        Failure(NullArgument)
      else
        var shortened := strip.items[..|strip.items| - 1];
        var own := if s.ctf.Same? then shortened else s.folder.items;
        var restored := own[i := own[i].(text := caption.value, font := s.oldFont, control := Control(s.oldBgColor))];
        if s.ctf.Same? then
          Success(s.(folder := FolderState(restored, true)))
        else
          Success(s.(folder := s.folder.(items := restored), ctf := Other(FolderState(shortened, true))))
  }

  /** updateTab: the branch is chosen by the part's dirty flag. */
  function Update(s: Snapshot, i: nat, part: Part): (r: Result<Snapshot, Fault>)
    requires i < |s.folder.items|
    // afterwards ctf refers to a folder, and its style is simple exactly after a clean update
    ensures r.Success? ==> !r.value.ctf.Unset? && RememberedFolder(r.value).simple == !part.dirty
    // a dirty update adds one item to the tab's folder, a clean one removes one from ctf's folder
    ensures r.Success? && part.dirty ==> |r.value.folder.items| == |s.folder.items| + 1
    ensures r.Success? && !part.dirty ==>
      !s.ctf.Unset? && |RememberedFolder(r.value).items| == |RememberedFolder(s).items| - 1
  {
    if part.dirty then MarkDirty(s, i, part.localizedLabel) else MarkClean(s, i, part.localizedLabel)
  }

  /**
   * n dirty updates in a row for the tab at position i. Nothing guards
   * against a repeated dirty update: each appends a marker, and from the
   * second on the memory holds the decoration instead of the tab's own look.
   */
  function DirtyTimes(s: Snapshot, i: nat, caption: Option<string>, n: nat): (r: Result<Snapshot, Fault>)
    requires i < |s.folder.items|
    ensures r.Success? <==> n == 0 || s.folder.items[i].control.Control?
    ensures r.Success? ==>
      var m, t, after := |s.folder.items|, s.folder.items[i], r.value.folder.items;
      && |after| == m + n
      && (forall k | 0 <= k < m && k != i :: after[k] == s.folder.items[k])
      && (forall k | m <= k < m + n :: after[k] == MarkerItem(k))
      && (n >= 1 ==>
            && after[i] == Decorated(t, caption)
            && r.value.ctf == Same
            && !r.value.folder.simple
            && r.value.oldFont == (if n == 1 then t.font else Some(DecorationFont))
            && r.value.oldBgColor == (if n == 1 then t.control.background else Some(Black)))
    decreases n
  {
    if n == 0 then
      Success(s)
    else
      match MarkDirty(s, i, caption)
      case Failure(e) => Failure(e)
      case Success(d) => DirtyTimes(d, i, caption, n - 1)
  }

  /**
   * A dirty update directly followed by a clean one on the same tab gives
   * the folder back its items, the tab its font and background (the text
   * becomes the label), and leaves the memory holding that look.
   */
  lemma DirtyThenCleanRestores(s: Snapshot, i: nat, dirtyCaption: Option<string>, caption: string)
    requires i < |s.folder.items| && s.folder.items[i].control.Control?
    ensures MarkDirty(s, i, dirtyCaption).Success?
    ensures
      var t := s.folder.items[i];
      MarkClean(MarkDirty(s, i, dirtyCaption).value, i, Some(caption))
        == Success(Snapshot(FolderState(s.folder.items[i := t.(text := caption)], true), Same, t.font, t.control.background))
  {
    var t := s.folder.items[i];
    var d := MarkDirty(s, i, dirtyCaption).value;
    var c := MarkClean(d, i, Some(caption));
    var expected := s.folder.items[i := t.(text := caption)];
    assert c.Success?;
    assert c.value.folder.items == expected;
  }

  /**
   * Two or more dirty updates followed by one clean update: one marker per
   * extra dirty update stays behind, and the tab keeps the decoration font
   * and background, because the memory was overwritten with them.
   */
  lemma RepeatedDirtyThenClean(s: Snapshot, i: nat, dirtyCaption: Option<string>, caption: string, n: nat)
    requires i < |s.folder.items| && s.folder.items[i].control.Control?
    requires n >= 2
    ensures DirtyTimes(s, i, dirtyCaption, n).Success?
    ensures
      var m, t := |s.folder.items|, s.folder.items[i];
      var c := MarkClean(DirtyTimes(s, i, dirtyCaption, n).value, i, Some(caption));
      && c.Success?
      && |c.value.folder.items| == m + n - 1
      && (forall k | m <= k < m + n - 1 :: c.value.folder.items[k] == MarkerItem(k))
      && c.value.folder.items[i] == TabItem(caption, Some(DecorationFont), Control(Some(Black)), t.style)
  {
  }

  /**
   * Two tabs of one folder become dirty, then the first becomes clean: the
   * marker disposed is the second tab's, the first tab takes the second
   * tab's former font and background from the shared memory, and the folder
   * turns simple although the second tab is still dirty.
   */
  lemma InterleavedTabsShareMemory(s: Snapshot, i: nat, j: nat, ci: Option<string>, cj: Option<string>, caption: string)
    requires i < |s.folder.items| && j < |s.folder.items| && i != j
    requires s.folder.items[i].control.Control? && s.folder.items[j].control.Control?
    ensures MarkDirty(s, i, ci).Success?
    ensures MarkDirty(MarkDirty(s, i, ci).value, j, cj).Success?
    ensures
      var n, ti, tj := |s.folder.items|, s.folder.items[i], s.folder.items[j];
      var c := MarkClean(MarkDirty(MarkDirty(s, i, ci).value, j, cj).value, i, Some(caption));
      && c.Success?
      && |c.value.folder.items| == n + 1
      && c.value.folder.items[n] == MarkerItem(n)
      && c.value.folder.items[i] == TabItem(caption, tj.font, tj.control, ti.style)
      && c.value.folder.items[j] == Decorated(tj, cj)
      && c.value.folder.simple
  {
  }

  /**
   * A second clean update after a dirty/clean pair finds no marker at the
   * end: it disposes the folder's last pane tab, or fails when that tab is
   * the one being updated.
   */
  lemma CleanTwiceDisposesPaneTab(s: Snapshot, i: nat, dirtyCaption: Option<string>, caption: string)
    requires i < |s.folder.items| && s.folder.items[i].control.Control?
    ensures MarkDirty(s, i, dirtyCaption).Success?
    ensures MarkClean(MarkDirty(s, i, dirtyCaption).value, i, Some(caption)).Success?
    ensures
      var n := |s.folder.items|;
      var c := MarkClean(MarkDirty(s, i, dirtyCaption).value, i, Some(caption)).value;
      var c2 := MarkClean(c, i, Some(caption));
      && (i == n - 1 ==> c2 == Failure(WidgetDisposed))
      && (i < n - 1 ==> c2.Success? && c2.value.folder.items == c.folder.items[..n - 1])
  {
  }
}
