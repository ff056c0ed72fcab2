/** `std::filesystem::path` as the editor uses it: a sequence of name
    components, with the parent, append, file name and extension operations.
    Root names, separators and normalisation are not modelled. */
module Paths {
  import opened Wrappers
  import Strings

  type Path = seq<string>

  /** `parent_path`: the path without its last component. */
  function Parent(p: Path): (q: Path)
    ensures |p| > 0 ==> p == q + [p[|p| - 1]]
    ensures |p| == 0 ==> q == []
  {
    if |p| == 0 then [] else p[..|p| - 1]
  }

  /** `p /= name` for a single component. */
  function Join(p: Path, name: string): (q: Path)
    ensures |q| == |p| + 1 && q[..|p|] == p && q[|p|] == name
  {
    p + [name]
  }

  /** The parent of `p / name` is `p`. */
  lemma ParentOfJoin(p: Path, name: string)
    ensures Parent(Join(p, name)) == p
  {
    assert Join(p, name)[..|p|] == p;
  }

  /** `filename`: the last component, or empty. */
  function FileName(p: Path): (f: string)
    ensures |p| > 0 ==> f == p[|p| - 1]
    ensures |p| == 0 ==> f == ""
  {
    if |p| == 0 then "" else p[|p| - 1]
  }

  /** The extension of a file name: from its last dot to the end, except that
      "." and "..", and a name whose only dot leads it, have none. */
  function NameExtension(name: string): (x: string)
    ensures x != "" ==> x[0] == '.' && Strings.EndsWith(name, x)
    ensures x != "" ==> forall j :: 0 < j < |x| ==> x[j] != '.'
    ensures x == "" <==> name == "." || name == ".." || match Strings.RFind(name, '.')
                                                         case None => true
                                                         case Some(i) => i == 0
  {
    if name == "." || name == ".." then ""
    else match Strings.RFind(name, '.')
      case None => ""
      case Some(i) => if i == 0 then "" else name[i..]
  }

  /** `extension()` of a path. */
  function Extension(p: Path): (x: string)
    ensures |p| == 0 ==> x == ""
    ensures x != "" ==> x[0] == '.' && Strings.EndsWith(FileName(p), x)
  {
    NameExtension(FileName(p))
  }

  /** `q` is `p` or lies below it. */
  predicate Within(q: Path, p: Path) {
    |p| <= |q| && q[..|p|] == p
  }

  /** A sample: "assets/scenes/Physics.yaml" has the extension ".yaml"; a
      dot-file and a name without a dot have none. */
  lemma ExtensionExamples()
    ensures Extension(["assets", "scenes", "Physics.yaml"]) == ".yaml"
    ensures Extension(["assets", ".yaml"]) == ""
    ensures Extension(["assets", "scene"]) == ""
    ensures Extension(["a.b", "c"]) == ""
  {
    Strings.RFindIs("Physics.yaml", '.', 7);
    assert "Physics.yaml"[7..] == ".yaml";
    Strings.RFindIs(".yaml", '.', 0);
  }
}
