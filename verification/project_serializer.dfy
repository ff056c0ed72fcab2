/** The project file: a "Project" map of four strings. */
module ProjectSerializer {
  import opened Yaml

  /** The paths are kept as the strings `path::string()` gives. */
  datatype ProjectConfig = ProjectConfig(name: string, startScenePath: string, assetDirectory: string, scriptModulePath: string)

  /** A new configuration is named "Untitled" with empty paths. */
  function DefaultConfig(): (c: ProjectConfig)
    ensures c.name == "Untitled" && c.startScenePath == [] && c.assetDirectory == [] && c.scriptModulePath == []
  {
    ProjectConfig("Untitled", [], [], [])
  }

  /** `serialize`: the tree written to the file; it always reports success. */
  function Serialize(c: ProjectConfig): (r: (Node, bool))
    ensures r.1
    ensures AsString(Get(ProjectNode(r.0), "Name")) == Value(c.name)
    ensures AsString(Get(ProjectNode(r.0), "StartScene")) == Value(c.startScenePath)
    ensures AsString(Get(ProjectNode(r.0), "AssetDirectory")) == Value(c.assetDirectory)
    ensures AsString(Get(ProjectNode(r.0), "ScriptModulePath")) == Value(c.scriptModulePath)
  {
    var fields := [
      ("Name", Leaf(Str(c.name))),
      ("StartScene", Leaf(Str(c.startScenePath))),
      ("AssetDirectory", Leaf(Str(c.assetDirectory))),
      ("ScriptModulePath", Leaf(Str(c.scriptModulePath)))];
    EntryAt(fields, 0);
    EntryAt(fields, 1);
    EntryAt(fields, 2);
    EntryAt(fields, 3);
    (Map([("Project", Map(fields))]), true)
  }

  /** The node under "Project", or null when there is none. */
  function ProjectNode(root: Node): Node {
    match Get(root, "Project")
    case Found(n) => n
    case _ => Null
  }

  /** `deserialize`: a parse error returns false and any other load failure
      escapes, both with the configuration untouched; a missing "Project"
      returns false; then the four fields are assigned one after another, and
      a field that cannot be read escapes with the earlier ones assigned. */
  function Deserialize(c: ProjectConfig, loaded: Loaded): (r: (ProjectConfig, Ending))
    ensures loaded.ParseError? ==> r == (c, Returned(false))
    ensures loaded.OtherError? ==> r == (c, Escaped)
    ensures loaded.Parsed? && Get(loaded.root, "Project").Undefined? ==> r == (c, Returned(false))
    ensures r.1 == Returned(true) ==>
      && loaded.Parsed?
      && var p := ProjectNode(loaded.root);
      && Value(r.0.name) == AsString(Get(p, "Name"))
      && Value(r.0.startScenePath) == AsString(Get(p, "StartScene"))
      && Value(r.0.assetDirectory) == AsString(Get(p, "AssetDirectory"))
      && Value(r.0.scriptModulePath) == AsString(Get(p, "ScriptModulePath"))
    ensures r.1 == Returned(false) ==> r.0 == c
    ensures r.0.scriptModulePath != c.scriptModulePath ==> r.1 == Returned(true)
  {
    match loaded
    case ParseError => (c, Returned(false))
    case OtherError => (c, Escaped)
    case Parsed(root) =>
      match Get(root, "Project")
      case BadSubscript => (c, Escaped)
      case Undefined => (c, Returned(false))
      case Found(p) =>
        match AsString(Get(p, "Name"))
        case Thrown => (c, Escaped)
        case Value(name) =>
          var c1 := c.(name := name);
          match AsString(Get(p, "StartScene"))
          case Thrown => (c1, Escaped)
          case Value(start) =>
            var c2 := c1.(startScenePath := start);
            match AsString(Get(p, "AssetDirectory"))
            case Thrown => (c2, Escaped)
            case Value(assets) =>
              var c3 := c2.(assetDirectory := assets);
              match AsString(Get(p, "ScriptModulePath"))
              case Thrown => (c3, Escaped)
              case Value(modulePath) => (c3.(scriptModulePath := modulePath), Returned(true))
  }

  /** Writing a configuration and reading it back, over any configuration,
      gives the written one and reports success. */
  lemma RoundTrip(c: ProjectConfig, previous: ProjectConfig)
    ensures Deserialize(previous, Parsed(Serialize(c).0)) == (c, Returned(true))
  {
  }

  /** A project map holding only a name assigns the name and then escapes on
      the missing start scene: the update is partial. */
  lemma PartialUpdate(c: ProjectConfig, name: string)
    ensures Deserialize(c, Parsed(Map([("Project", Map([("Name", Leaf(Str(name)))]))])))
      == (c.(name := name), Escaped)
  {
    var fields := [("Name", Leaf(Str(name)))];
    assert Entry(fields, "StartScene") == Entry(fields[1..], "StartScene");
  }
}
