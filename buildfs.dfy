/** tools/airmount.py and fs.py: a read-only FUSE filesystem exposing the
    compile output of each project as `/<project>/<file>`. A compile
    notification from the editor lists the output files and their URLs;
    a file's bytes are downloaded on the first `read` and cached. The two
    files carry the same filesystem code and differ only in the editor
    command sent after a rebuild. */
module BuildFs {
  import opened Base
  import opened PyText
  import opened PySeq
  import opened JsonValues

  /** A Python dict with string keys: its keys in insertion order and its
      entries. */
  datatype Dict<V> = Dict(keys: seq<string>, entries: map<string, V>)

  /** The keys are distinct and are exactly the entries' keys. */
  ghost predicate WellFormed<V>(d: Dict<V>)
  {
    (forall i, j :: 0 <= i < j < |d.keys| ==> d.keys[i] != d.keys[j])
    && (forall k :: k in d.entries <==> k in d.keys)
  }

  /** `d[k] = v`: a new key goes last, an existing key keeps its place. */
  function Put<V>(d: Dict<V>, k: string, v: V): (r: Dict<V>)
    ensures r.entries == d.entries[k := v]
    ensures r.keys == if k in d.entries then d.keys else d.keys + [k]
  {
    if k in d.entries then Dict(d.keys, d.entries[k := v]) else Dict(d.keys + [k], d.entries[k := v])
  }

  /** Assignment keeps a dict well formed. */
  lemma PutWellFormed<V>(d: Dict<V>, k: string, v: V)
    requires WellFormed(d)
    ensures WellFormed(Put(d, k, v))
  {
    var r := Put(d, k, v);
    if k !in d.entries {
      forall i, j | 0 <= i < j < |r.keys| ensures r.keys[i] != r.keys[j] {
        if j == |d.keys| {
          assert r.keys[i] == d.keys[i];
        }
      }
    }
  }

  /** `{'url': ..., 'content': ...}`: the download address and the cached
      bytes, `None` until fetched. */
  datatype FileInfo = FileInfo(url: string, content: Option<seq<bv8>>)

  /** One entry of `outputFiles`. */
  datatype OutputFile = OutputFile(path: string, url: string)

  /** The decoded notification payload. */
  datatype CompileOutput = CompileOutput(project: string, url: string, outputFiles: seq<OutputFile>,
                                         headers: Json, mountName: string)

  /** The editor command sent after a rebuild: `airmount` names the mount
      and the project, `fs.py` sends the bare event. */
  datatype Remount = Remount(mountName: string, project: string) | BareRemount

  /** A `Stat`: the fields the filesystem sets from its arguments (ids and
      times are constants or the process's own). */
  datatype Stat = Stat(mode: int, nlink: int, size: int)

  /** A FUSE reply: a value, or a negated `errno`. */
  datatype Reply<T> = Found(value: T) | Errno(code: int)

  const ENOENT: int := 2
  const EIO: int := 5
  const S_IFDIR: int := 0x4000
  const S_IFREG: int := 0x8000
  /** `S_IFDIR | 0o755`. */
  const DirMode: int := S_IFDIR + 0x1ED
  /** `S_IFREG | 0o444`. */
  const FileMode: int := S_IFREG + 0x124
  /** The size reported for a file not yet downloaded. */
  const UnfetchedSize: int := 1024000

  /** `stat.S_ISDIR(mode)`: the file-type bits `mode & 0o170000` are
      `S_IFDIR`. */
  predicate IsDir(mode: int)
  {
    (mode / 0x1000) % 16 == S_IFDIR / 0x1000
  }

  /** `Stat(mode, size)`: two links for a directory, one otherwise. */
  function MakeStat(mode: int, size: int): (st: Stat)
    ensures st.mode == mode && st.size == size
    ensures st.nlink == if IsDir(mode) then 2 else 1
  {
    Stat(mode, if IsDir(mode) then 2 else 1, size)
  }

  /** The two modes the filesystem uses: directories have two links,
      files one. */
  lemma ModesLinks(size: int)
    ensures MakeStat(DirMode, size).nlink == 2
    ensures MakeStat(FileMode, size).nlink == 1
  {
  }

  /** `path.lstrip('/')`. */
  function LStripSlash(path: string): (r: string)
    ensures |r| <= |path| && r == path[|path| - |r|..]
    ensures r == [] || r[0] != '/'
    ensures forall k :: 0 <= k < |path| - |r| ==> path[k] == '/'
  {
    if path != [] && path[0] == '/' then LStripSlash(path[1..]) else path
  }

  /** `path.lstrip('/').split('/')`. */
  function PathParts(path: string): seq<string>
  {
    Split(LStripSlash(path), '/')
  }

  /** The project and file a two-part path names, when both exist. */
  function Located(projects: Dict<Dict<FileInfo>>, path: string): (loc: Option<(string, string)>)
    ensures loc.Some? ==> loc.value.0 in projects.entries && loc.value.1 in projects.entries[loc.value.0].entries
  {
    var parts := PathParts(path);
    if |parts| == 2 && parts[0] in projects.entries && parts[1] in projects.entries[parts[0]].entries
    then Some((parts[0], parts[1]))
    else None
  }

  /** `getattr(path)`. */
  function Attributes(projects: Dict<Dict<FileInfo>>, path: string): (r: Reply<Stat>)
    ensures r.Errno? ==> r.code == -ENOENT
  {
    var parts := PathParts(path);
    if path == "/" then Found(MakeStat(DirMode, 0))
    else if |parts| == 1 then
      if parts[0] in projects.entries then Found(MakeStat(DirMode, 0)) else Errno(-ENOENT)
    else if |parts| == 2 then
      match Located(projects, path)
      case Some((p, f)) =>
        var content := projects.entries[p].entries[f].content;
        Found(MakeStat(FileMode, if content.Some? then |content.value| else UnfetchedSize))
      case None => Errno(-ENOENT)
    else Errno(-ENOENT)
  }

  /** `readdir(path)`: the entry names it yields. */
  function Listing(projects: Dict<Dict<FileInfo>>, path: string): seq<string>
  {
    var parts := PathParts(path);
    if path == "/" then [".", ".."] + projects.keys
    else if |parts| == 1 && parts[0] in projects.entries then [".", ".."] + projects.entries[parts[0]].keys
    else []
  }

  /** `"/" + p` splits into `[p]` for a name without a slash. */
  lemma OnePart(p: string)
    requires '/' !in p
    ensures PathParts("/" + p) == [p]
  {
    assert LStripSlash("/" + p) == LStripSlash(p) by { assert ("/" + p)[1..] == p; }
    if p != [] {
      assert p[0] in p;
    }
    SplitNoSep(p, '/');
  }

  /** `"/" + p + "/" + f` splits into `[p, f]` when `p` is not empty and
      neither name holds a slash. */
  lemma TwoParts(p: string, f: string)
    requires '/' !in p && '/' !in f && p != ""
    ensures PathParts("/" + p + "/" + f) == [p, f]
  {
    var path := "/" + p + "/" + f;
    assert path[1..] == p + "/" + f;
    assert p[0] in p;
    assert LStripSlash(path) == p + "/" + f;
    assert Join([p, f], '/') == p + "/" + f by { assert [p, f][1..] == [f]; }
    SplitJoin([p, f], '/');
  }

  /** The root is a directory. */
  lemma RootAttributes(projects: Dict<Dict<FileInfo>>)
    ensures Attributes(projects, "/") == Found(Stat(DirMode, 2, 0))
  {
  }

  /** A one-component path is a directory exactly when it names a project. */
  lemma ProjectAttributes(projects: Dict<Dict<FileInfo>>, p: string)
    requires '/' !in p && p != ""
    ensures Attributes(projects, "/" + p) == if p in projects.entries then Found(Stat(DirMode, 2, 0)) else Errno(-ENOENT)
  {
    OnePart(p);
    assert "/" + p != "/" by { assert |"/" + p| > 1; }
  }

  /** A two-component path is a read-only file exactly when the project
      lists it; its size is that of the cached bytes, or 1024000 before the
      first download. */
  lemma FileAttributes(projects: Dict<Dict<FileInfo>>, p: string, f: string)
    requires '/' !in p && '/' !in f && p != ""
    ensures p in projects.entries && f in projects.entries[p].entries ==>
      var content := projects.entries[p].entries[f].content;
      Attributes(projects, "/" + p + "/" + f) == Found(Stat(FileMode, 1, if content.Some? then |content.value| else UnfetchedSize))
    ensures !(p in projects.entries && f in projects.entries[p].entries) ==>
      Attributes(projects, "/" + p + "/" + f) == Errno(-ENOENT)
  {
    TwoParts(p, f);
    assert "/" + p + "/" + f != "/" by { assert |"/" + p + "/" + f| > 1; }
  }

  /** A path of three or more components is never found. */
  lemma DeepPathsMissing(projects: Dict<Dict<FileInfo>>, path: string)
    requires |PathParts(path)| > 2
    ensures Attributes(projects, path) == Errno(-ENOENT)
  {
    assert PathParts("/") == [""] by {
      assert LStripSlash("/") == LStripSlash("/"[1..]);
    }
  }

  /** `readdir` and `getattr` agree: a file name is listed under its
      project directory exactly when `getattr` finds it, and a project is
      listed at the root exactly when `getattr` finds its directory. */
  lemma ListingAgrees(projects: Dict<Dict<FileInfo>>, p: string, f: string)
    requires WellFormed(projects) && (forall q :: q in projects.entries ==> WellFormed(projects.entries[q]))
    requires '/' !in p && '/' !in f && p != ""
    ensures p in Listing(projects, "/")[2..] <==> Attributes(projects, "/" + p).Found?
    ensures Attributes(projects, "/" + p + "/" + f).Found?
        <==> |Listing(projects, "/" + p)| >= 2 && f in Listing(projects, "/" + p)[2..]
  {
    ProjectAttributes(projects, p);
    FileAttributes(projects, p, f);
    OnePart(p);
    assert "/" + p != "/" by { assert |"/" + p| > 1; }
    assert Listing(projects, "/")[2..] == projects.keys;
    if p in projects.entries {
      assert Listing(projects, "/" + p)[2..] == projects.entries[p].keys;
    }
  }

  /** The table a notification builds from `outputFiles`: one entry per
      path, in first-appearance order, with no bytes yet. */
  function FilesTable(base: string, files: seq<OutputFile>): Dict<FileInfo>
  {
    if files == [] then Dict([], map[])
    else
      var last := files[|files| - 1];
      Put(FilesTable(base, files[..|files| - 1]), last.path, FileInfo(base + last.url, None))
  }

  lemma {:induction false} FilesTableWellFormed(base: string, files: seq<OutputFile>)
    ensures WellFormed(FilesTable(base, files))
  {
    if files != [] {
      var last := files[|files| - 1];
      FilesTableWellFormed(base, files[..|files| - 1]);
      PutWellFormed(FilesTable(base, files[..|files| - 1]), last.path, FileInfo(base + last.url, None));
    }
  }

  /** No later entry of `files` has the path of entry `i`. */
  predicate LastWithPath(files: seq<OutputFile>, i: int)
    requires 0 <= i < |files|
  {
    forall j :: i < j < |files| ==> files[j].path != files[i].path
  }

  /** The paths of `outputFiles`. */
  function Paths(files: seq<OutputFile>): set<string>
  {
    set i | 0 <= i < |files| :: files[i].path
  }

  /** Unfolds one step of `FilesTable` (a helper for the lemmas below). */
  lemma FilesTableStep(base: string, files: seq<OutputFile>)
    requires files != []
    ensures var n := |files| - 1;
      FilesTable(base, files).entries == FilesTable(base, files[..n]).entries[files[n].path := FileInfo(base + files[n].url, None)]
  {
  }

  /** The rebuilt table lists exactly the output paths. */
  lemma {:induction false} FilesTableKeys(base: string, files: seq<OutputFile>)
    ensures FilesTable(base, files).entries.Keys == Paths(files)
  {
    if files != [] {
      var n := |files| - 1;
      FilesTableKeys(base, files[..n]);
      FilesTableStep(base, files);
      PathsStep(files);
    }
  }

  /** The paths of a list are those of all but its last entry, and the
      last entry's. */
  lemma PathsStep(files: seq<OutputFile>)
    requires files != []
    ensures Paths(files) == Paths(files[..|files| - 1]) + {files[|files| - 1].path}
  {
    var n := |files| - 1;
    var init := files[..n];
    forall k | k in Paths(files) ensures k in Paths(init) + {files[n].path} {
      var i :| 0 <= i < |files| && files[i].path == k;
      if i < n {
        assert init[i] == files[i];
      }
    }
    forall k | k in Paths(init) ensures k in Paths(files) {
      var i :| 0 <= i < n && init[i].path == k;
      assert files[i] == init[i];
    }
  }

  /** The rebuilt table caches no bytes. */
  lemma {:induction false} FilesTableUnfetched(base: string, files: seq<OutputFile>)
    ensures forall k :: k in FilesTable(base, files).entries ==> FilesTable(base, files).entries[k].content == None
  {
    if files != [] {
      FilesTableUnfetched(base, files[..|files| - 1]);
      FilesTableStep(base, files);
    }
  }

  /** Each path gets the URL of its last entry, prefixed by the base URL. */
  lemma {:induction false} FilesTableUrls(base: string, files: seq<OutputFile>)
    ensures var t := FilesTable(base, files);
      forall i :: 0 <= i < |files| && LastWithPath(files, i) ==> files[i].path in t.entries && t.entries[files[i].path].url == base + files[i].url
  {
    if files != [] {
      var n := |files| - 1;
      var init := files[..n];
      FilesTableUrls(base, init);
      var t := FilesTable(base, files);
      FilesTableStep(base, files);
      forall i | 0 <= i < |files| && LastWithPath(files, i)
        ensures files[i].path in t.entries && t.entries[files[i].path].url == base + files[i].url
      {
        if i < n {
          assert files[n].path != files[i].path;
          assert init[i] == files[i];
          assert LastWithPath(init, i) by {
            forall j | i < j < |init| ensures init[j].path != init[i].path {
              assert init[j] == files[j];
            }
          }
        }
      }
    }
  }

  /** The projects after file `f` of project `p` caches `bytes`. */
  function Cache(projects: Dict<Dict<FileInfo>>, p: string, f: string, bytes: seq<bv8>): Dict<Dict<FileInfo>>
    requires p in projects.entries && f in projects.entries[p].entries
  {
    var files := projects.entries[p];
    Put(projects, p, Put(files, f, FileInfo(files.entries[f].url, Some(bytes))))
  }

  /** Caching changes no listing and does not move any file. */
  lemma CacheKeepsNames(projects: Dict<Dict<FileInfo>>, p: string, f: string, bytes: seq<bv8>, path: string)
    requires p in projects.entries && f in projects.entries[p].entries
    ensures Listing(Cache(projects, p, f, bytes), path) == Listing(projects, path)
    ensures Located(Cache(projects, p, f, bytes), path) == Located(projects, path)
  {
    var c := Cache(projects, p, f, bytes);
    assert c.keys == projects.keys && c.entries.Keys == projects.entries.Keys;
    assert forall q :: q in projects.entries ==>
      c.entries[q].keys == projects.entries[q].keys && c.entries[q].entries.Keys == projects.entries[q].entries.Keys;
  }

  /** After caching, `getattr` reports the downloaded size for that file
      and the same attributes as before for every other path. */
  lemma CacheEffects(projects: Dict<Dict<FileInfo>>, p: string, f: string, bytes: seq<bv8>, path: string)
    requires p in projects.entries && f in projects.entries[p].entries
    ensures Located(projects, path) == Some((p, f)) ==>
      Attributes(Cache(projects, p, f, bytes), path) == Found(Stat(FileMode, 1, |bytes|))
    ensures Located(projects, path) != Some((p, f)) ==>
      Attributes(Cache(projects, p, f, bytes), path) == Attributes(projects, path)
  {
    var c := Cache(projects, p, f, bytes);
    CacheKeepsNames(projects, p, f, bytes, path);
    var loc := Located(projects, path);
    if loc.Some? && loc != Some((p, f)) {
      var (q, g) := loc.value;
      assert c.entries[q].entries[g] == projects.entries[q].entries[g];
    }
  }

  /** The loop of `handle_notification` filling the project's table. */
  method BuildTable(base: string, files: seq<OutputFile>) returns (table: Dict<FileInfo>)
    ensures table == FilesTable(base, files)
  {
    table := Dict([], map[]);
    var i := 0;
    while i < |files|
      invariant 0 <= i <= |files|
      invariant table == FilesTable(base, files[..i])
    {
      var file := files[i];
      assert files[..i + 1][..i] == files[..i];
      table := Put(table, file.path, FileInfo(base + file.url, None));
      i := i + 1;
    }
    assert files[..i] == files;
  }

  /** The projects dict and every project's file dict are well formed. */
  ghost predicate NestedWellFormed(projects: Dict<Dict<FileInfo>>)
  {
    WellFormed(projects) && forall q :: q in projects.entries ==> WellFormed(projects.entries[q])
  }

  /** Assigning a well-formed table keeps the nesting well formed. */
  lemma NestedPut(projects: Dict<Dict<FileInfo>>, p: string, table: Dict<FileInfo>)
    requires NestedWellFormed(projects) && WellFormed(table)
    ensures NestedWellFormed(Put(projects, p, table))
  {
    PutWellFormed(projects, p, table);
  }

  /** Caching keeps the nesting well formed and the project names. */
  lemma CacheWellFormed(projects: Dict<Dict<FileInfo>>, p: string, f: string, bytes: seq<bv8>)
    requires NestedWellFormed(projects) && p in projects.entries && f in projects.entries[p].entries
    ensures NestedWellFormed(Cache(projects, p, f, bytes)) && Cache(projects, p, f, bytes).keys == projects.keys
  {
    var files := projects.entries[p];
    PutWellFormed(files, f, FileInfo(files.entries[f].url, Some(bytes)));
    NestedPut(projects, p, Put(files, f, FileInfo(files.entries[f].url, Some(bytes))));
  }

  /** The filesystem object. `header` is `None` until the first
      notification sets it; `listening` is the editor event loop. */
  class OverleafBuildFs {
    var projects: Dict<Dict<FileInfo>>
    var header: Option<Json>
    var listening: bool
    var remounts: seq<Remount>

    /** Every dict is well formed, and the download headers are known once
        any project is. */
    ghost predicate Valid()
      reads this
    {
      NestedWellFormed(projects) && (projects.keys != [] ==> header.Some?)
    }

    /** `__init__`: no projects; the listener thread starts its loop. */
    constructor ()
      ensures projects == Dict([], map[]) && header == None && listening && remounts == [] && Valid()
    {
      projects, header, listening, remounts := Dict([], map[]), None, true, [];
    }

    /** `read(path, size, offset)`; `response` is what downloading the
        file's URL would give, `None` for a failed request. Bytes already
        cached are returned without a download; a download is cached only
        when it succeeds. */
    method Read(path: string, size: int, offset: int, response: Option<seq<bv8>>) returns (r: Reply<seq<bv8>>)
      requires Valid()
      modifies this`projects
      ensures Valid()
      ensures Located(old(projects), path).None? ==> r == Errno(-ENOENT) && projects == old(projects)
      ensures Located(old(projects), path).Some? ==>
        var (p, f) := Located(old(projects), path).value;
        var content := old(projects).entries[p].entries[f].content;
        (content.Some? ==> r == Found(Slice(content.value, offset, offset + size)) && projects == old(projects))
        && (content.None? && response.None? ==> r == Errno(-EIO) && projects == old(projects))
        && (content.None? && response.Some? ==>
              r == Found(Slice(response.value, offset, offset + size))
              && projects == Cache(old(projects), p, f, response.value))
    {
      var loc := Located(projects, path);
      if loc.None? {
        return Errno(-ENOENT);
      }
      var (p, f) := loc.value;
      var content := projects.entries[p].entries[f].content;
      if content.None? {
        if response.None? {
          return Errno(-EIO);
        }
        content := response;
        CacheWellFormed(projects, p, f, response.value);
        projects := Cache(projects, p, f, response.value);
      }
      r := Found(Slice(content.value, offset, offset + size));
    }

    /** The table rebuild of a compile notification: the project's files
        are replaced by a fresh table without bytes, and the headers kept
        for downloads. */
    method Rebuild(output: CompileOutput)
      requires Valid()
      modifies this`projects, this`header
      ensures Valid()
      ensures projects == Put(old(projects), output.project, FilesTable(output.url, output.outputFiles))
      ensures header == Some(output.headers)
    {
      var table := BuildTable(output.url, output.outputFiles);
      FilesTableWellFormed(output.url, output.outputFiles);
      NestedPut(projects, output.project, table);
      projects := Put(projects, output.project, table);
      header := Some(output.headers);
    }

    /** `handle_notification` in `tools/airmount.py`: `umount` stops the
        loop and leaves the projects alone; any other event rebuilds the
        project's table and asks the editor to remount, naming the mount
        and the project. */
    method HandleNotification(event: string, output: CompileOutput)
      requires Valid()
      modifies this`projects, this`header, this`listening, this`remounts
      ensures Valid()
      ensures event == "umount" ==> !listening && unchanged(this`projects, this`header, this`remounts)
      ensures event != "umount" ==>
        projects == Put(old(projects), output.project, FilesTable(output.url, output.outputFiles))
        && header == Some(output.headers)
        && remounts == old(remounts) + [Remount(output.mountName, output.project)]
        && listening == old(listening)
    {
      if event == "umount" {
        listening := false;
        return;
      }
      Rebuild(output);
      remounts := remounts + [Remount(output.mountName, output.project)];
    }

    /** `handle_notification` in `fs.py`: the same, with a remount command
        that carries no arguments. */
    method HandleNotificationBare(event: string, output: CompileOutput)
      requires Valid()
      modifies this`projects, this`header, this`listening, this`remounts
      ensures Valid()
      ensures event == "umount" ==> !listening && unchanged(this`projects, this`header, this`remounts)
      ensures event != "umount" ==>
        projects == Put(old(projects), output.project, FilesTable(output.url, output.outputFiles))
        && header == Some(output.headers)
        && remounts == old(remounts) + [BareRemount]
        && listening == old(listening)
    {
      if event == "umount" {
        listening := false;
        return;
      }
      Rebuild(output);
      remounts := remounts + [BareRemount];
    }
  }

  /** A rebuild drops the project's cached bytes: every listed file of the
      project reports the not-yet-downloaded size, and the files of other
      projects keep their attributes. */
  lemma RebuildDropsCache(projects: Dict<Dict<FileInfo>>, output: CompileOutput, q: string, f: string)
    requires '/' !in q && '/' !in f && q != ""
    ensures var after := Put(projects, output.project, FilesTable(output.url, output.outputFiles));
      (q == output.project && f in after.entries[q].entries ==>
         Attributes(after, "/" + q + "/" + f) == Found(Stat(FileMode, 1, UnfetchedSize)))
      && (q != output.project ==> Attributes(after, "/" + q + "/" + f) == Attributes(projects, "/" + q + "/" + f))
  {
    var after := Put(projects, output.project, FilesTable(output.url, output.outputFiles));
    FilesTableUnfetched(output.url, output.outputFiles);
    FileAttributes(after, q, f);
    FileAttributes(projects, q, f);
  }

  /** Two reads of one file return the same bytes once the first has
      succeeded: the second never downloads, whatever its request would
      give. */
  method ReadTwice(fs: OverleafBuildFs, path: string, size: int, offset: int,
                   first: Option<seq<bv8>>, second: Option<seq<bv8>>) returns (r1: Reply<seq<bv8>>, r2: Reply<seq<bv8>>)
    requires fs.Valid()
    modifies fs`projects
    ensures r1.Found? ==> r2 == r1
  {
    r1 := fs.Read(path, size, offset, first);
    r2 := fs.Read(path, size, offset, second);
    if r1.Found? {
      var loc := Located(old(fs.projects), path);
      var (p, f) := loc.value;
      CacheKeepsNames(old(fs.projects), p, f, if first.Some? then first.value else [], path);
    }
  }
}
