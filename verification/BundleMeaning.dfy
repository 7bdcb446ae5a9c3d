/** What a rotate stores, for either kind of input, said path by path. */
module BundleMeaning {
  import opened A2aDoc
  import opened Bundles
  import Text

  // ----------------------------------------------------------------------- statement

  ghost predicate NoneWith(files: seq<File>, path: string) { forall i :: 0 <= i < |files| ==> files[i].path != path }

  /** f is the last of the files with this path. */
  ghost predicate LastWith(files: seq<File>, path: string, f: File) {
    exists i :: 0 <= i < |files| && files[i] == f && f.path == path && forall j :: i < j < |files| ==> files[j].path != path
  }

  ghost predicate NoUpdate(updates: seq<Update>, path: string) { forall i :: 0 <= i < |updates| ==> updates[i].path != path }

  /** The last update of this path writes this content. */
  ghost predicate LastUpdate(updates: seq<Update>, path: string, content: string) {
    exists i :: 0 <= i < |updates| && updates[i] == Update(path, content) && forall j :: i < j < |updates| ==> updates[j].path != path
  }

  function FilesOf(current: Option<IdentityBundle>): seq<File> { if current.Some? then current.value.files else [] }

  /**
   * The file that counts for a path.  A replacement counts as it is.  In a merge an addition goes before an
   * update, an update, which is always text, before a kept file, and a file counts as kept only if its path
   * is named.
   */
  ghost predicate Counts(current: Option<IdentityBundle>, input: Input, path: string, f: File) {
    match input
    case Replace(files) => f in files && f.path == path
    case Merge(keep, updates, additions) =>
      LastWith(additions, path, f) ||
      (NoneWith(additions, path) &&
       ((f.path == path && !f.base64 && LastUpdate(updates, path, f.content)) ||
        (NoUpdate(updates, path) && path in keep && LastWith(FilesOf(current), path, f))))
  }

  /** A relative path without a parent segment, and at most 256 KiB if the content is binary. */
  predicate FileFits(f: File) {
    f.path != "" && f.path[0] != '/' && ".." !in Text.SplitOn(f.path, '/') && (f.base64 ==> DecodedLength(f.content) <= 262_144)
  }

  /** A payload of whole base64 groups decodes to three bytes a group, less one for each padding character. */
  lemma DecodedIs(s: string, groups: nat, padding: nat)
    requires |s| == 4 * groups && groups > 0 && padding <= 2
    requires padding == 0 ==> s[|s| - 1] != '='
    requires padding == 1 ==> s[|s| - 1] == '=' && s[|s| - 2] != '='
    requires padding == 2 ==> s[|s| - 1] == '=' && s[|s| - 2] == '='
    ensures DecodedLength(s) == 3 * groups - padding
  {
  }

  // -------------------------------------------------------------------------- proof

  lemma FitsIsOk(f: File)
    ensures FileOk(f) <==> FileFits(f)
  {
    hide Text.SplitOn, DecodedLength;
    var p := f.path;
    Text.PieceMeans(p, '/', "..");
    forall i, j | 0 <= i <= j <= |p| ensures IsSegment(p, i, j) <==> Text.IsPiece(p, '/', i, j) {}
  }

  lemma LastStep(files: seq<File>, path: string, f: File)
    requires files != []
    ensures var n := |files| - 1;
            LastWith(files, path, f) <==> if files[n].path == path then f == files[n] else LastWith(files[..n], path, f)
  {
    var n := |files| - 1;
    assert forall i :: 0 <= i < n ==> files[..n][i] == files[i];
    if files[n].path == path {
      if f == files[n] { assert files[n] == f; }
    } else if LastWith(files[..n], path, f) {
      var i :| 0 <= i < n && files[..n][i] == f && forall j :: i < j < n ==> files[..n][j].path != path;
      assert files[i] == f;
    }
  }

  lemma NoneStep(files: seq<File>, path: string)
    requires files != []
    ensures var n := |files| - 1; NoneWith(files, path) <==> files[n].path != path && NoneWith(files[..n], path)
  {
    var n := |files| - 1;
    assert forall i :: 0 <= i < n ==> files[..n][i] == files[i];
  }

  lemma {:induction false} NewestIsLast(files: seq<File>, path: string)
    ensures Newest(files, path).None? <==> NoneWith(files, path)
    ensures forall f :: Newest(files, path) == Some(f) <==> LastWith(files, path, f)
  {
    if files != [] {
      hide LastWith, NoneWith;
      var n := |files| - 1;
      NewestIsLast(files[..n], path);
      NoneStep(files, path);
      forall f ensures Newest(files, path) == Some(f) <==> LastWith(files, path, f) { LastStep(files, path, f); }
    }
  }

  lemma {:induction false} NewestOfBoth(a: seq<File>, b: seq<File>, path: string)
    ensures Newest(a + b, path) == if Newest(b, path).Some? then Newest(b, path) else Newest(a, path)
  {
    if b == [] {
      assert a + b == a;
    } else {
      var n := |b| - 1;
      assert (a + b)[..|a| + n] == a + b[..n];
      NewestOfBoth(a, b[..n], path);
    }
  }

  lemma {:induction false} NewestOfKept(files: seq<File>, keep: set<string>, path: string)
    ensures Newest(Kept(files, keep), path) == if path in keep then Newest(files, path) else None
  {
    if files != [] {
      var n := |files| - 1;
      NewestOfKept(files[..n], keep, path);
      NewestOfBoth(Kept(files[..n], keep), if files[n].path in keep then [files[n]] else [], path);
      assert [files[n]][..0] == [];
    }
  }

  lemma UpdatesAsFiles(updates: seq<Update>, path: string)
    ensures NoneWith(AsFiles(updates), path) <==> NoUpdate(updates, path)
    ensures forall f: File :: LastWith(AsFiles(updates), path, f) <==> f.path == path && !f.base64 && LastUpdate(updates, path, f.content)
  {
    var files := AsFiles(updates);
    forall f: File ensures LastWith(files, path, f) <==> f.path == path && !f.base64 && LastUpdate(updates, path, f.content) {
      if LastWith(files, path, f) {
        var i :| 0 <= i < |files| && files[i] == f && f.path == path && forall j :: i < j < |files| ==> files[j].path != path;
        assert updates[i] == Update(path, f.content);
        assert forall j :: i < j < |updates| ==> updates[j].path == files[j].path;
      }
      if f.path == path && !f.base64 && LastUpdate(updates, path, f.content) {
        var i :| 0 <= i < |updates| && updates[i] == Update(path, f.content) && forall j :: i < j < |updates| ==> updates[j].path != path;
        assert files[i] == f;
        assert forall j :: i < j < |updates| ==> updates[j].path == files[j].path;
      }
    }
    if NoneWith(files, path) {
      forall i | 0 <= i < |updates| ensures updates[i].path != path { assert files[i].path == updates[i].path; }
    }
  }

  lemma StoredIsCounted(current: Option<IdentityBundle>, input: Input, f: File)
    ensures f in NextFiles(current, input) <==> Counts(current, input, f.path, f)
  {
    hide Kept, AsFiles, PutAll, Distinct, Dedup, LastWith, NoneWith, LastUpdate, NoUpdate;
    if input.Merge? {
      var kept := Kept(CurrentFiles(current), input.keep);
      var updates := AsFiles(input.updates);
      var all := kept + updates + input.additions;
      PutAllMeaning(all);
      FoundIsIn(PutAll(all), f);
      NewestOfBoth(kept + updates, input.additions, f.path);
      NewestOfBoth(kept, updates, f.path);
      NewestOfKept(CurrentFiles(current), input.keep, f.path);
      NewestIsLast(input.additions, f.path);
      NewestIsLast(updates, f.path);
      NewestIsLast(CurrentFiles(current), f.path);
      UpdatesAsFiles(input.updates, f.path);
    }
  }

  lemma {:induction false} FoundIsIn(files: seq<File>, f: File)
    requires Distinct(files)
    ensures f in files <==> Find(files, f.path) == Some(f)
  {
    if f in files {
      var i :| 0 <= i < |files| && files[i] == f;
      var g := Find(files, f.path).value;
      var j :| 0 <= j < |files| && files[j] == g;
      assert i == j;
    }
  }

  /**
   * A rotate stores, as the next version, exactly the files that count, each path once after a merge and the
   * given list after a replacement.  It fails exactly if none counts or one that counts does not fit.
   */
  lemma NextMeans(current: Option<IdentityBundle>, input: Input)
    ensures var r := NextBundle(current, input);
            (r == Err(EmptyBundle) <==> forall f: File :: !Counts(current, input, f.path, f)) &&
            (r == Err(InvalidBundle) <==> exists f: File :: Counts(current, input, f.path, f) && !FileFits(f)) &&
            (r.Ok? ==>
              r.value.version == (if current.Some? then current.value.version else 0) + 1 &&
              (forall f: File :: f in r.value.files <==> Counts(current, input, f.path, f)) &&
              (input.Merge? ==> forall i, j :: 0 <= i < j < |r.value.files| ==> r.value.files[i].path != r.value.files[j].path) &&
              (input.Replace? ==> r.value.files == input.files))
  {
    hide NextFiles, Counts, FileOk, FileFits;
    var files := NextFiles(current, input);
    forall f: File ensures f in files <==> Counts(current, input, f.path, f) { StoredIsCounted(current, input, f); }
    forall f: File ensures FileOk(f) <==> FileFits(f) { FitsIsOk(f); }
    assert files != [] ==> files[0] in files;
    NextFilesShape(current, input);
  }

  lemma NextFilesShape(current: Option<IdentityBundle>, input: Input)
    ensures input.Merge? ==> Distinct(NextFiles(current, input))
    ensures input.Replace? ==> NextFiles(current, input) == input.files
  {
    hide Distinct, PutAll, Kept;
    if input.Merge? { PutAllMeaning(Kept(CurrentFiles(current), input.keep) + AsFiles(input.updates) + input.additions); }
  }
}
