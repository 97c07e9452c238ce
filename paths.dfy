/**
 * `java.io.File` paths as lists of names: `File(parent, child)` appends the
 * non-empty '/'-separated names of `child` (repeated and trailing slashes are
 * dropped, as File normalises them) and `parent` drops the last name.
 */
module Paths {
  import opened Text

  datatype Path = Path(names: seq<string>)

  function NonEmpty(parts: seq<string>): (r: seq<string>)
    ensures forall i :: 0 <= i < |r| ==> r[i] != "" && r[i] in parts
    decreases |parts|
  {
    if |parts| == 0 then []
    else if parts[0] == "" then NonEmpty(parts[1..])
    else [parts[0]] + NonEmpty(parts[1..])
  }

  /** The names a relative path string denotes. */
  function Names(rel: string): seq<string> {
    NonEmpty(Split(rel, '/'))
  }

  /** `File(parent, child)` */
  function Child(parent: Path, child: string): Path {
    Path(parent.names + Names(child))
  }

  /** `file.parentFile` (the root stays the root). */
  function Parent(p: Path): Path {
    if |p.names| == 0 then p else Path(p.names[..|p.names| - 1])
  }

  /** `file.name`: the last name ("" for the root). */
  function FileName(p: Path): string {
    if |p.names| == 0 then "" else p.names[|p.names| - 1]
  }

  /** `file.absolutePath` of an absolute path. */
  function AbsolutePath(p: Path): string {
    "/" + Join(p.names, "/")
  }

  /** `file.extension`: what follows the last '.' of the name, or "" when it has none. */
  function Extension(p: Path): string {
    AfterLastDot(FileName(p))
  }

  /** Kotlin `substringAfterLast('.', "")`. */
  function AfterLastDot(name: string): (r: string)
    ensures '.' !in r
    ensures '.' !in name ==> r == ""
    ensures '.' in name ==> |r| < |name| && name[|name| - |r| - 1] == '.' && r == name[|name| - |r|..]
    decreases |name|
  {
    if '.' !in name || name[|name| - 1] == '.' then ""
    else
      var init := name[..|name| - 1];
      assert '.' in init by {
        var k :| 0 <= k < |name| && name[k] == '.';
        assert init[k] == '.';
      }
      AfterLastDot(init) + [name[|name| - 1]]
  }

  /** A name without '/' is one path element. */
  lemma NamesOfName(name: string)
    requires name != "" && '/' !in name
    ensures Names(name) == [name]
  {
    assert Split(name, '/') == [name];
    assert NonEmpty([name]) == [name] + NonEmpty([]);
  }

  /** "Echo/<name>" is two path elements. */
  lemma NamesUnderEcho(name: string)
    requires name != "" && '/' !in name
    ensures Names("Echo/" + name) == ["Echo", name]
  {
    var s := "Echo/" + name;
    assert s[4] == '/' && s[..4] == "Echo";
    IndexOfFirst(s, '/', 4);
    assert s[5..] == name;
    assert Split(s, '/') == ["Echo"] + Split(name, '/');
    assert Split(name, '/') == [name];
    assert ["Echo"] + [name] == ["Echo", name];
    assert NonEmpty(["Echo", name]) == ["Echo"] + NonEmpty([name]);
    assert ["Echo", name][1..] == [name];
    assert NonEmpty([name]) == [name] + NonEmpty([]);
  }
}
