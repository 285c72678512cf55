/** `get_storage_name` of libvirt-compose.py: the pool volume name of an installer
    image, derived from its location. */
module Storage {
  import opened Text
  import opened Wrappers

  predicate IsUrl(location: string) {
    IsPrefix("https://", location) || IsPrefix("http://", location)
  }

  /** The components `pathlib` keeps: empty ones (from repeated or trailing slashes) and `.`
      are dropped, `..` is kept. */
  function Components(parts: seq<string>): (cs: seq<string>)
    ensures forall c :: c in cs ==> c in parts && c != [] && c != "."
  {
    if parts == [] then []
    else (if parts[0] == [] || parts[0] == "." then [] else [parts[0]]) + Components(parts[1..])
  }

  /** `Path(location).name`: the last component, or the empty name when there is none. */
  function PathName(location: string): string {
    var cs := Components(Split(location, '/'));
    if cs == [] then [] else cs[|cs| - 1]
  }

  /** `get_storage_name`: for an http(s) URL the text after the last `/`, otherwise the final
      path component. Either way the name holds no `/`. */
  function GetStorageName(location: string): (r: string)
    ensures '/' !in r
  {
    SplitJoin(location, '/');
    var parts := Split(location, '/');
    if IsUrl(location) then parts[|parts| - 1] else PathName(location)
  }

  lemma {:induction false} ComponentsAppend(xs: seq<string>, ys: seq<string>)
    ensures Components(xs + ys) == Components(xs) + Components(ys)
  {
    if xs == [] {
      assert xs + ys == ys;
    } else {
      assert (xs + ys)[1..] == xs[1..] + ys;
      ComponentsAppend(xs[1..], ys);
    }
  }

  lemma UrlPrefix(base: string, rest: string)
    requires IsUrl(base)
    ensures IsUrl(base + rest)
  {
    assert (base + rest)[..7] == base[..7];
    if IsPrefix("https://", base) {
      assert (base + rest)[..8] == base[..8];
    }
  }

  /** A URL names the text after its last `/`, which is empty for a trailing `/`. */
  lemma UrlName(base: string, file: string)
    requires IsUrl(base) && '/' !in file
    ensures GetStorageName(base + "/" + file) == file
  {
    UrlPrefix(base, "/" + file);
    assert base + "/" + file == base + ['/'] + file;
    SplitConcat(base, '/', file);
    SplitWithout(file, '/');
  }

  predicate ProperName(file: string) {
    file != [] && file != "." && '/' !in file
  }

  /** `Path(dir + "/" + file).name` is `file`. */
  lemma PathNameLast(dir: string, file: string)
    requires ProperName(file)
    ensures PathName(dir + "/" + file) == file
  {
    assert dir + "/" + file == dir + ['/'] + file;
    SplitConcat(dir, '/', file);
    SplitWithout(file, '/');
    ComponentsAppend(Split(dir, '/'), [file]);
  }

  /** A local path names its last component. */
  lemma PathNameOf(dir: string, file: string)
    requires ProperName(file) && !IsUrl(dir + "/" + file)
    ensures GetStorageName(dir + "/" + file) == file
  {
    PathNameLast(dir, file);
  }

  /** Unlike a URL, a local path keeps its last component when it ends in `/`. */
  lemma TrailingSlashPath(dir: string, file: string)
    requires ProperName(file) && !IsUrl(dir + "/" + file + "/")
    ensures GetStorageName(dir + "/" + file + "/") == file
  {
    assert dir + "/" + file + "/" == dir + ['/'] + (file + ['/'] + []);
    SplitConcat(dir, '/', file + ['/'] + []);
    SplitConcat(file, '/', []);
    SplitWithout(file, '/');
    assert Split(file + ['/'] + [], '/') == [file, []];
    ComponentsAppend(Split(dir, '/'), [file, []]);
    assert [file, []][1..] == [[]];
    assert Components([[]]) == [] + Components([]);
    assert Components([file, []]) == [file] + Components([[]]);
  }

  /** A bare file name is its own storage name. */
  lemma PlainName(file: string)
    requires ProperName(file) && !IsUrl(file)
    ensures GetStorageName(file) == file
  {
    SplitWithout(file, '/');
    assert Components([file]) == [file] + Components([]);
  }

  // ---------------------------------------------------------------------------
  // os.path.splitext

  /** The position of the last `.` of `s`, if any. */
  function LastDot(s: string): (r: Option<nat>)
    ensures r.Some? ==> r.value < |s| && s[r.value] == '.' && forall j :: r.value < j < |s| ==> s[j] != '.'
    ensures r.None? ==> '.' !in s
  {
    if s == [] then None
    else if s[|s| - 1] == '.' then Some(|s| - 1)
    else LastDot(s[..|s| - 1])
  }

  /** `os.path.splitext(name)[0]` for a name without `/`: the text before the last `.`,
      unless every character before that `.` is a `.` too, as in `.env`. */
  function SplitExtRoot(name: string): string {
    match LastDot(name)
    case None => name
    case Some(d) => if exists i :: 0 <= i < d && name[i] != '.' then name[..d] else name
  }

  /** The extension after the last `.` is dropped, as in `debian.yml` to `debian` or
      `a.tar.gz` to `a.tar`. */
  lemma ExtensionDropped(stem: string, ext: string)
    requires '.' !in ext && exists i :: 0 <= i < |stem| && stem[i] != '.'
    ensures SplitExtRoot(stem + "." + ext) == stem
  {
    var s := stem + "." + ext;
    var i :| 0 <= i < |stem| && stem[i] != '.';
    assert s[|stem|] == '.';
    assert s[i] == stem[i];
    assert s[..|stem|] == stem;
  }

  /** A name whose only `.` leads it, such as `.env`, keeps it. */
  lemma HiddenNameKept(s: string)
    requires '.' !in s
    ensures SplitExtRoot("." + s) == "." + s
  {
    var n := "." + s;
    assert n[0] == '.';
  }

  /** A name without `.` has no extension. */
  lemma NoExtensionKept(s: string)
    requires '.' !in s
    ensures SplitExtRoot(s) == s
  {
  }
}
