/** Identity bundles as lists of files, and the one rotate core that builds the next version. */
module Bundles {
  import opened A2aDoc

  const A2A_FILE := "config/a2a.json"
  const ENV_FILE := "config/agent.env"

  /** A bundle file; `base64` is the encoding marker, the mode is always 0600. */
  datatype File = File(path: string, content: string, base64: bool)
  datatype Update = Update(path: string, content: string)
  datatype IdentityBundle = IdentityBundle(version: nat, files: seq<File>)

  /** `updates` is a map in insertion order, so its paths are distinct. */
  datatype Input =
    | Replace(files: seq<File>)
    | Merge(keep: set<string>, updates: seq<Update>, additions: seq<File>)

  datatype Error = EmptyBundle | InvalidBundle
  datatype Result<+T> = Ok(value: T) | Err(error: Error)

  // ------------------------------------------------------------------ validation

  /** The path is split at every slash; two dots make a segment of their own nowhere. */
  predicate HasDotDot(p: string)
    decreases |p|
  {
    exists i, j :: 0 <= i <= j <= |p| && IsSegment(p, i, j) && p[i..j] == ".."
  }

  predicate IsSegment(p: string, i: nat, j: nat)
    requires i <= j <= |p|
  {
    (i == 0 || p[i - 1] == '/') && (j == |p| || p[j] == '/') && forall k :: i <= k < j ==> p[k] != '/'
  }

  predicate SafePath(p: string) { p != "" && p[0] != '/' && !HasDotDot(p) }

  const BINARY_MAX := 256 * 1024

  /** Decoded length of a base64 payload: three bytes for four characters, padding not counted. */
  function DecodedLength(s: string): nat {
    var n := |s|;
    var padding := if n >= 2 && s[n - 2] == '=' && s[n - 1] == '=' then 2 else if n >= 1 && s[n - 1] == '=' then 1 else 0;
    (n - padding) * 3 / 4
  }

  predicate FileOk(f: File) {
    SafePath(f.path) && (f.base64 ==> DecodedLength(f.content) <= BINARY_MAX)
  }

  /** IdentityBundleSchema. */
  predicate BundleOk(b: IdentityBundle) {
    b.version >= 1 && b.files != [] && forall f :: f in b.files ==> FileOk(f)
  }

  // -------------------------------------------------------------------- look-ups

  /** files.find: the first entry with this path. */
  function Find(files: seq<File>, path: string): (r: Option<File>)
    ensures r.Some? ==> r.value in files && r.value.path == path
    ensures r.None? ==> forall f :: f in files ==> f.path != path
  {
    if files == [] then None
    else if files[0].path == path then Some(files[0]) else Find(files[1..], path)
  }

  /** The last entry with this path. */
  function Newest(files: seq<File>, path: string): (r: Option<File>)
    ensures r.Some? ==> r.value in files && r.value.path == path
    ensures r.None? ==> forall f :: f in files ==> f.path != path
  {
    if files == [] then None
    else
      var n := |files| - 1;
      assert files == files[..n] + [files[n]];
      if files[n].path == path then Some(files[n]) else Newest(files[..n], path)
  }

  function Paths(files: seq<File>): (r: seq<string>)
    ensures |r| == |files| && forall i :: 0 <= i < |r| ==> r[i] == files[i].path
  {
    seq(|files|, i requires 0 <= i < |files| => files[i].path)
  }

  predicate Distinct(files: seq<File>) {
    forall i, j :: 0 <= i < j < |files| ==> files[i].path != files[j].path
  }

  // ---------------------------------------------------------------------- Map.set

  /** Map.set: an existing key keeps its place, a new one goes last. */
  function Put(files: seq<File>, f: File): (r: seq<File>)
    ensures f in r
    ensures |r| == |files| || r == files + [f]
  {
    if files == [] then [f]
    else if files[0].path == f.path then [f] + files[1..]
    else [files[0]] + Put(files[1..], f)
  }

  function PutAll(files: seq<File>): seq<File> {
    if files == [] then []
    else Put(PutAll(files[..|files| - 1]), files[|files| - 1])
  }

  lemma {:induction false} PutFind(files: seq<File>, f: File, path: string)
    ensures Find(Put(files, f), path) == if path == f.path then Some(f) else Find(files, path)
  {
    if files != [] && files[0].path != f.path {
      assert ([files[0]] + Put(files[1..], f))[1..] == Put(files[1..], f);
      PutFind(files[1..], f, path);
    } else if files != [] {
      assert ([f] + files[1..])[1..] == files[1..];
    }
  }

  lemma {:induction false} PutPaths(files: seq<File>, f: File)
    ensures Paths(Put(files, f)) == if f.path in Paths(files) then Paths(files) else Paths(files) + [f.path]
  {
    if files != [] {
      assert Paths(files) == [files[0].path] + Paths(files[1..]);
      if files[0].path != f.path {
        PutPaths(files[1..], f);
        assert Paths(Put(files, f)) == [files[0].path] + Paths(Put(files[1..], f));
      }
    }
  }

  /** The order of first occurrence, the content of the last. */
  lemma {:induction false} PutAllMeaning(files: seq<File>)
    ensures Paths(PutAll(files)) == Dedup(Paths(files))
    ensures Distinct(PutAll(files)) && forall path :: Find(PutAll(files), path) == Newest(files, path)
  {
    hide Put, Find, Newest, Distinct, Dedup;
    if files == [] {
      NothingPut();
    } else {
      var n := |files| - 1;
      var init := PutAll(files[..n]);
      PutAllMeaning(files[..n]);
      assert Paths(files)[..n] == Paths(files[..n]);
      PutPaths(init, files[n]);
      DedupStep(Paths(files));
      forall path ensures Find(PutAll(files), path) == Newest(files, path) {
        PutFind(init, files[n], path);
        NewestStep(files, path);
      }
      DistinctPaths(PutAll(files));
    }
  }

  lemma NothingPut()
    ensures PutAll([]) == [] && Dedup([]) == [] && Distinct([]) && forall path :: Find([], path) == Newest([], path)
  {
  }

  lemma DedupStep(names: seq<string>)
    requires names != []
    ensures var init, last := names[..|names| - 1], names[|names| - 1];
            Dedup(names) == if last in Dedup(init) then Dedup(init) else Dedup(init) + [last]
  {
  }

  lemma NewestStep(files: seq<File>, path: string)
    requires files != []
    ensures Newest(files, path) == if files[|files| - 1].path == path then Some(files[|files| - 1]) else Newest(files[..|files| - 1], path)
  {
  }

  lemma DistinctPaths(files: seq<File>)
    requires forall i, j :: 0 <= i < j < |files| ==> Paths(files)[i] != Paths(files)[j]
    ensures Distinct(files)
  {
    forall i, j | 0 <= i < j < |files| ensures files[i].path != files[j].path {
      assert Paths(files)[i] != Paths(files)[j];
    }
  }

  // -------------------------------------------------------------- buildNextBundle

  function Kept(files: seq<File>, keep: set<string>): seq<File> {
    if files == [] then []
    else
      var n := |files| - 1;
      Kept(files[..n], keep) + (if files[n].path in keep then [files[n]] else [])
  }

  function AsFiles(updates: seq<Update>): (r: seq<File>)
    ensures |r| == |updates|
  {
    seq(|updates|, i requires 0 <= i < |updates| => File(updates[i].path, updates[i].content, false))
  }

  function CurrentFiles(current: Option<IdentityBundle>): seq<File> {
    if current.Some? then current.value.files else []
  }

  function NextFiles(current: Option<IdentityBundle>, input: Input): seq<File> {
    if input.Replace? then input.files
    else PutAll(Kept(CurrentFiles(current), input.keep) + AsFiles(input.updates) + input.additions)
  }

  function NextVersion(current: Option<IdentityBundle>): nat {
    (if current.Some? then current.value.version else 0) + 1
  }

  function NextBundle(current: Option<IdentityBundle>, input: Input): Result<IdentityBundle> {
    var files := NextFiles(current, input);
    if files == [] then Err(EmptyBundle)
    else if exists f :: f in files && !FileOk(f) then Err(InvalidBundle)
    else Ok(IdentityBundle(NextVersion(current), files))
  }

  /** buildNextBundle: three loops over one insertion-ordered map. */
  method BuildNextBundle(current: Option<IdentityBundle>, input: Input) returns (r: Result<IdentityBundle>)
    ensures r == NextBundle(current, input)
  {
    var files: seq<File> := [];
    match input {
      case Replace(fs) => files := fs;
      case Merge(keep, updates, additions) =>
        files := KeepFiles(if current.Some? then current.value.files else [], keep);
        ghost var kept := Kept(CurrentFiles(current), keep);
        files := SetAll(files, AsFiles(updates), kept);
        files := SetAll(files, additions, kept + AsFiles(updates));
    }
    if files == [] { return Err(EmptyBundle); }
    if exists f :: f in files && !FileOk(f) { return Err(InvalidBundle); }
    return Ok(IdentityBundle(NextVersion(current), files));
  }

  method KeepFiles(was: seq<File>, keep: set<string>) returns (files: seq<File>)
    ensures files == PutAll(Kept(was, keep))
  {
    hide PutAll, Put, Kept;
    KeptStep(was, keep, 0);
    files := [];
    var i := 0;
    while i < |was|
      invariant 0 <= i <= |was| && files == PutAll(Kept(was[..i], keep))
    {
      KeptStep(was, keep, i);
      if was[i].path in keep { files := Set(files, was[i]); }
      i := i + 1;
    }
    assert was[..i] == was;
  }

  lemma KeptStep(was: seq<File>, keep: set<string>, i: nat)
    requires i <= |was|
    ensures PutAll(Kept(was[..0], keep)) == []
    ensures i < |was| ==>
              PutAll(Kept(was[..i + 1], keep)) ==
              (if was[i].path in keep then Put(PutAll(Kept(was[..i], keep)), was[i]) else PutAll(Kept(was[..i], keep)))
  {
    if i < |was| {
      assert was[..i + 1][..i] == was[..i];
      var done := Kept(was[..i], keep);
      assert (done + [was[i]])[..|done|] == done && done + [] == done;
    }
  }

  method SetAll(was: seq<File>, more: seq<File>, ghost done: seq<File>) returns (files: seq<File>)
    requires was == PutAll(done)
    ensures files == PutAll(done + more)
  {
    hide PutAll, Put;
    files := was;
    assert done + more[..0] == done;
    var i := 0;
    while i < |more|
      invariant 0 <= i <= |more| && files == PutAll(done + more[..i])
    {
      PutAllStep(done, more, i);
      files := Set(files, more[i]);
      i := i + 1;
    }
    assert more[..i] == more;
  }

  lemma PutAllStep(done: seq<File>, more: seq<File>, i: nat)
    requires i < |more|
    ensures PutAll(done + more[..i + 1]) == Put(PutAll(done + more[..i]), more[i])
  {
    assert (done + more[..i + 1])[..|done| + i] == done + more[..i];
  }

  method Set(files: seq<File>, f: File) returns (r: seq<File>)
    ensures r == Put(files, f)
  {
    var i := 0;
    while i < |files| && files[i].path != f.path
      invariant 0 <= i <= |files| && Put(files, f) == files[..i] + Put(files[i..], f)
    {
      i := i + 1;
    }
    r := if i < |files| then files[..i] + [f] + files[i + 1..] else files + [f];
  }

  /** What a merge stores: per path the last of kept, updated and added file; kept files first, in order. */
  lemma MergeMeaning(current: Option<IdentityBundle>, keep: set<string>, updates: seq<Update>, additions: seq<File>)
    requires NextBundle(current, Merge(keep, updates, additions)).Ok?
    ensures var b := NextBundle(current, Merge(keep, updates, additions)).value;
            var all := Kept(CurrentFiles(current), keep) + AsFiles(updates) + additions;
            b.version == NextVersion(current) && Distinct(b.files) && Paths(b.files) == Dedup(Paths(all)) &&
            forall path :: Find(b.files, path) == Newest(all, path)
  {
    PutAllMeaning(Kept(CurrentFiles(current), keep) + AsFiles(updates) + additions);
  }

  // ------------------------------------------------- the rotation's two merge specs

  /** mergeSpecForA2aReplace and mergeSpecForEnvUpdate: one file replaced, every other kept. */
  function ReplaceOne(files: seq<File>, path: string, content: string): Input {
    Merge(set f | f in files && f.path != path :: f.path, [Update(path, content)], [])
  }

  function Others(files: seq<File>, path: string): seq<File> {
    if files == [] then []
    else
      var n := |files| - 1;
      Others(files[..n], path) + (if files[n].path != path then [files[n]] else [])
  }

  lemma {:induction false} KeptIsOthers(files: seq<File>, part: seq<File>, path: string)
    requires forall f :: f in part ==> f in files
    ensures Kept(part, ReplaceOne(files, path, "").keep) == Others(part, path)
  {
    if part != [] {
      var n := |part| - 1;
      assert part == part[..n] + [part[n]];
      KeptIsOthers(files, part[..n], path);
    }
  }

  lemma {:induction false} OthersFind(files: seq<File>, path: string)
    ensures forall f :: f in Others(files, path) <==> f in files && f.path != path
    ensures forall q :: q != path ==> Newest(Others(files, path), q) == Newest(files, q)
    ensures Distinct(files) ==> Distinct(Others(files, path))
  {
    if files != [] {
      var n := |files| - 1;
      assert files == files[..n] + [files[n]];
      OthersFind(files[..n], path);
      forall q | q != path ensures Newest(Others(files, path), q) == Newest(files, q) {
        if files[n].path != path { NewestOfAppended(Others(files[..n], path), files[n], q); }
        else { assert Others(files[..n], path) + [] == Others(files[..n], path); }
      }
    }
  }

  lemma NewestOfAppended(files: seq<File>, f: File, path: string)
    ensures Newest(files + [f], path) == if f.path == path then Some(f) else Newest(files, path)
  {
    assert (files + [f])[..|files|] == files;
  }

  lemma {:induction false} PutAllDistinct(files: seq<File>)
    requires Distinct(files)
    ensures PutAll(files) == files
  {
    hide Put;
    if files != [] {
      var n := |files| - 1;
      assert forall g :: g in files[..n] ==> g.path != files[n].path;
      assert Distinct(files[..n]);
      PutAllDistinct(files[..n]);
      PutAppends(files[..n], files[n]);
      assert files == files[..n] + [files[n]];
    }
  }

  lemma {:induction false} PutAppends(files: seq<File>, f: File)
    requires forall g :: g in files ==> g.path != f.path
    ensures Put(files, f) == files + [f]
  {
    if files != [] { PutAppends(files[1..], f); }
  }

  /** Replacing one file keeps all others, contents, encoding and order; the replaced one moves to the end. */
  lemma OtherFilesStay(current: IdentityBundle, path: string, content: string)
    requires NextBundle(Some(current), ReplaceOne(current.files, path, content)).Ok?
    ensures var b := NextBundle(Some(current), ReplaceOne(current.files, path, content)).value;
            b.version == current.version + 1 && Find(b.files, path) == Some(File(path, content, false)) &&
            (forall q :: q != path ==> Find(b.files, q) == Newest(current.files, q)) &&
            (Distinct(current.files) ==> b.files == Others(current.files, path) + [File(path, content, false)])
  {
    hide Distinct, PutAll, Others, FileOk;
    var files := current.files;
    var f := File(path, content, false);
    var input := ReplaceOne(files, path, content);
    var others := Others(files, path);
    KeptIsOthers(files, files, path);
    assert input.keep == ReplaceOne(files, path, "").keep;
    assert Kept(files, input.keep) + AsFiles(input.updates) + [] == others + [f];
    OthersFind(files, path);
    PutAllMeaning(others + [f]);
    forall q ensures Newest(others + [f], q) == if q == path then Some(f) else Newest(files, q) { NewestOfAppended(others, f, q); }
    if Distinct(files) { OthersDistinct(files, path, f); }
  }

  lemma OthersDistinct(files: seq<File>, path: string, f: File)
    requires Distinct(files) && f.path == path
    ensures PutAll(Others(files, path) + [f]) == Others(files, path) + [f]
  {
    hide PutAll;
    OthersFind(files, path);
    PutAllDistinct(Others(files, path) + [f]);
  }
}
