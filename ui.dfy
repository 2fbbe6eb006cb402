/**
 * The parts of SWT and of the e4 application model that the custom stack
 * renderer touches: fonts, colours, tab items, the tab folder and the part
 * behind a tab.
 */
module Ui {
  import opened Wrappers

  /** SWT's font style bits: SWT.NORMAL, SWT.BOLD, SWT.ITALIC or both. */
  datatype FontStyle = Normal | Bold | Italic | BoldItalic

  /** A font by its description; the device and the native handle are not modelled. */
  datatype Font = Font(name: string, height: nat, style: FontStyle)

  /** A colour by its components. */
  datatype Color = Rgb(red: int, green: int, blue: int)

  /**
   * The control a tab item shows (getControl()): none (null), or a control
   * with its background, where None is the control's default background.
   */
  datatype ControlView = NoControl | Control(background: Option<Color>)

  /**
   * A CTabItem's attributes: its text, the font set on it (None: null, so
   * SWT falls back to the folder's font), its control and the style bits it
   * was created with.
   */
  datatype TabItem = TabItem(text: string, font: Option<Font>, control: ControlView, style: int)

  /** A CTabFolder's attributes: its items in order and its "simple" style flag. */
  datatype FolderState = FolderState(items: seq<TabItem>, simple: bool)

  /** An e4 MPart as the renderer sees it: its localized label (None: null) and its dirty flag. */
  datatype Part = Part(localizedLabel: Option<string>, dirty: bool)

  /**
   * A CTabFolder. Its items are changed in place by the setters below, by
   * creating an item in it and by disposing one of its items.
   */
  class TabFolder {
    var items: seq<TabItem>
    var simple: bool

    /** A folder as the host's base renderer creates it, with the given items and style. */
    constructor (items: seq<TabItem>, simple: bool)
      ensures this.items == items && this.simple == simple
    {
      this.items := items;
      this.simple := simple;
    }

    /** The folder's attributes as a value. */
    function State(): FolderState
      reads this
    {
      FolderState(items, simple)
    }

    /**
     * new CTabItem(folder, style): the two-argument constructor takes style
     * bits and adds the new item, with empty text, no font and no control, at
     * the end of the folder.
     */
    method CreateItem(style: int)
      modifies this
      ensures items == old(items) + [TabItem("", None, NoControl, style)]
      ensures simple == old(simple)
    {
      items := items + [TabItem("", None, NoControl, style)];
    }

    /** getItem(index).dispose(): the item leaves the folder; the others keep their order. */
    method DisposeItem(index: nat)
      requires index < |items|
      modifies this
      ensures items == old(items[..index] + items[index + 1..])
      ensures simple == old(simple)
    {
      items := items[..index] + items[index + 1..];
    }

    /** getItem(index).setText(text). */
    method SetText(index: nat, text: string)
      requires index < |items|
      modifies this
      ensures items == old(items[index := items[index].(text := text)])
      ensures simple == old(simple)
    {
      items := items[index := items[index].(text := text)];
    }

    /** getItem(index).setFont(font). */
    method SetFont(index: nat, font: Option<Font>)
      requires index < |items|
      modifies this
      ensures items == old(items[index := items[index].(font := font)])
      ensures simple == old(simple)
    {
      items := items[index := items[index].(font := font)];
    }

    /** getItem(index).getControl().setBackground(color); the control must exist. */
    method SetControlBackground(index: nat, color: Option<Color>)
      requires index < |items| && items[index].control.Control?
      modifies this
      ensures items == old(items[index := items[index].(control := Control(color))])
      ensures simple == old(simple)
    {
      items := items[index := items[index].(control := Control(color))];
    }

    /** setSimple(simple). */
    method SetSimple(simple: bool)
      modifies this
      ensures this.simple == simple && items == old(items)
    {
      this.simple := simple;
    }
  }
}
