/** The content browser panel: the directory it shows, the back button, entering
    a directory by double-click, and the number of thumbnail columns. The
    listing of a directory comes in as data; the file system is not read. */
module ContentBrowser {
  import opened Wrappers
  import Paths
  import Vectors

  /** One entry of a directory listing. */
  datatype Entry = Entry(name: string, isDirectory: bool)

  /** A name a directory listing can hold: a single non-empty component other
      than "." and "..", which `directory_iterator` skips. */
  predicate ListedName(name: string) {
    name != "" && name != "." && name != ".."
  }

  datatype Browser = Browser(base: Paths.Path, current: Paths.Path)

  /** The panel only ever shows the asset directory or a directory below it. */
  predicate Valid(b: Browser) {
    Paths.Within(b.current, b.base)
  }

  /** The constructor starts in the project's asset directory. */
  function NewBrowser(assetDirectory: Paths.Path): (b: Browser)
    ensures b.current == b.base == assetDirectory
    ensures Valid(b)
  {
    Browser(assetDirectory, assetDirectory)
  }

  /** The back button is drawn only away from the asset directory. */
  predicate ShowsBack(b: Browser) {
    b.current != b.base
  }

  /** Pressing the back button moves to the parent directory; when the button
      is not drawn nothing can be pressed. */
  function Back(b: Browser): (b': Browser)
    ensures b'.base == b.base
    ensures !ShowsBack(b) ==> b' == b
    ensures ShowsBack(b) && |b.current| > 0 ==> b.current == b'.current + [b.current[|b.current| - 1]]
    ensures Valid(b) ==> Valid(b')
  {
    if ShowsBack(b) then b.(current := Paths.Parent(b.current)) else b
  }

  /** Double-clicking an entry enters it when it is a directory; a file
      changes nothing. */
  function DoubleClick(b: Browser, e: Entry): (b': Browser)
    requires ListedName(e.name)
    ensures b'.base == b.base
    ensures e.isDirectory ==> b'.current == b.current + [e.name]
    ensures !e.isDirectory ==> b' == b
    ensures Valid(b) ==> Valid(b')
  {
    if e.isDirectory then b.(current := Paths.Join(b.current, e.name)) else b
  }

  /** One frame of the panel: the back button first, then the double-clicked
      entry of the listing, if any. */
  function Frame(b: Browser, backPressed: bool, clicked: Option<Entry>): (b': Browser)
    requires clicked.Some? ==> ListedName(clicked.value.name)
    ensures b'.base == b.base
    ensures Valid(b) ==> Valid(b')
  {
    var b1 := if backPressed then Back(b) else b;
    match clicked
    case None => b1
    case Some(e) => DoubleClick(b1, e)
  }

  /** Whatever sequence of frames runs, the panel stays inside the asset
      directory. */
  lemma {:induction false} FramesStayWithin(b: Browser, presses: seq<bool>, clicks: seq<Option<Entry>>)
    requires Valid(b) && |presses| == |clicks|
    requires forall i :: 0 <= i < |clicks| && clicks[i].Some? ==> ListedName(clicks[i].value.name)
    ensures Valid(Frames(b, presses, clicks)) && Frames(b, presses, clicks).base == b.base
    decreases |presses|
  {
    if |presses| > 0 {
      FramesStayWithin(Frame(b, presses[0], clicks[0]), presses[1..], clicks[1..]);
    }
  }

  function Frames(b: Browser, presses: seq<bool>, clicks: seq<Option<Entry>>): Browser
    requires |presses| == |clicks|
    requires forall i :: 0 <= i < |clicks| && clicks[i].Some? ==> ListedName(clicks[i].value.name)
    decreases |presses|
  {
    if |presses| == 0 then b
    else Frames(Frame(b, presses[0], clicks[0]), presses[1..], clicks[1..])
  }

  /** Going back from a directory just entered returns to where the panel
      was. */
  lemma BackUndoesEnter(b: Browser, name: string)
    requires Valid(b) && ListedName(name)
    ensures Back(DoubleClick(b, Entry(name, true))) == b
  {
    Paths.ParentOfJoin(b.current, name);
    assert |DoubleClick(b, Entry(name, true)).current| > |b.base|;
  }

  const THUMBNAIL_SIZE: real := 80.0
  const PADDING: real := 16.0

  /** The column count: as many 96-wide cells as fit, at least one. */
  function ColumnCount(panelWidth: real): (n: int)
    ensures n >= 1
    ensures panelWidth < 2.0 * (THUMBNAIL_SIZE + PADDING) ==> n == 1
    ensures panelWidth >= THUMBNAIL_SIZE + PADDING ==>
      (n as real) * (THUMBNAIL_SIZE + PADDING) <= panelWidth < (n as real + 1.0) * (THUMBNAIL_SIZE + PADDING)
  {
    var cellSize := THUMBNAIL_SIZE + PADDING;
    var count := Vectors.Truncate(panelWidth / cellSize);
    if count < 1 then 1 else count
  }
}
