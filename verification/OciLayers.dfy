/** The layer walk: every entry of every layer, annotated with whether a whiteout hides it. */
module OciLayers {
  import opened A2aDoc

  datatype GateError =
    | MissingBlob | SizeMismatch | DigestMismatch | CorruptLayer | PathTraversal
    | MalformedLayout | MalformedDescriptor | Finding
    | DuplicatePlatform | ExtraPlatform | MissingPlatform | UnknownChildDigest

  datatype Result<+T> = Ok(value: T) | Err(error: GateError)

  type Bytes = string

  /** `Odd` is a platform object whose fields are not strings: it prints as some key but never passes a shape check. */
  datatype Platform = Absent | Platform(os: string, architecture: string) | Odd(key: string)

  datatype Descriptor = Descriptor(mediaType: string, digest: string, size: nat, platform: Platform, attestation: bool)

  datatype TarEntry = TarEntry(name: string, data: Bytes)

  /** Decoders the gate relies on; None and Err are throws.  Hashing, gzip, tar and JSON are opaque. */
  datatype Tools = Tools(
    sha256: Bytes -> string,
    untar: (Bytes, string) -> Option<seq<TarEntry>>,
    parseIndex: Bytes -> Result<seq<Descriptor>>,
    parseManifest: Bytes -> Result<Manifest>,
    loadLayout: Bytes -> Result<Layout>,
    cleanEntries: seq<LayerEntry> -> bool,
    cleanConfig: Bytes -> bool,
    isJson: Bytes -> bool)

  datatype Manifest = Manifest(config: Descriptor, layers: seq<Descriptor>)

  datatype Layout = Layout(index: seq<Descriptor>, blobs: map<string, Bytes>)

  datatype LayerEntry = LayerEntry(entry: TarEntry, name: string, layerIndex: nat, layerDigest: string, deleted: bool, isMarker: bool)

  /** validateDescriptorAgainstBlob. */
  function Validated(tools: Tools, d: Descriptor, blobs: map<string, Bytes>): (r: Result<Bytes>)
    ensures r.Ok? <==> d.digest in blobs && |blobs[d.digest]| == d.size && tools.sha256(blobs[d.digest]) == d.digest
    ensures r.Ok? ==> r.value == blobs[d.digest]
  {
    if d.digest !in blobs then Err(MissingBlob)
    else if |blobs[d.digest]| != d.size then Err(SizeMismatch)
    else if tools.sha256(blobs[d.digest]) != d.digest then Err(DigestMismatch)
    else Ok(blobs[d.digest])
  }

  // ---------------------------------------------------------------------- path names

  function StripLead(s: string): string {
    if "./" <= s then StripLead(s[2..]) else if "/" <= s then StripLead(s[1..]) else s
  }

  /** Leading slashes and dot-slashes go, and one trailing slash. */
  function Normalized(name: string): string {
    var s := StripLead(name);
    if s != "" && s[|s| - 1] == '/' then s[..|s| - 1] else s
  }

  function LastSlash(p: string): (r: int)
    ensures -1 <= r < |p|
    ensures r >= 0 ==> p[r] == '/'
    ensures forall i :: r < i < |p| ==> p[i] != '/'
  {
    if p == "" then -1 else if p[|p| - 1] == '/' then |p| - 1 else LastSlash(p[..|p| - 1])
  }

  function DirName(p: string): string { if LastSlash(p) == -1 then "" else p[..LastSlash(p)] }

  function BaseName(p: string): string { p[LastSlash(p) + 1..] }

  /** A ".." segment in the name after its leading slashes are gone. */
  predicate Climbs(name: string) {
    exists i :: 0 <= i <= |StripLead(name)| && ClimbsAt(StripLead(name), i)
  }

  predicate ClimbsAt(s: string, i: nat) {
    i + 2 <= |s| && s[i..i + 2] == ".." && (i == 0 || s[i - 1] == '/') && (i + 2 == |s| || s[i + 2] == '/')
  }

  const WHITEOUT := ".wh."
  const OPAQUE_MARKER := ".wh..wh..opq"

  predicate IsMarker(name: string) { WHITEOUT <= BaseName(name) }

  predicate IsOpaque(name: string) { BaseName(name) == OPAQUE_MARKER }

  /** The path a whiteout names. */
  function Target(name: string): string
    requires IsMarker(name)
  {
    var base := BaseName(name)[|WHITEOUT|..];
    if DirName(name) == "" then base else DirName(name) + "/" + base
  }

  function WhitedOut(entries: seq<TarEntry>): set<string> {
    set e | e in entries && IsMarker(Normalized(e.name)) && !IsOpaque(Normalized(e.name)) :: Target(Normalized(e.name))
  }

  function OpaqueDirs(entries: seq<TarEntry>): set<string> {
    set e | e in entries && IsOpaque(Normalized(e.name)) :: DirName(Normalized(e.name))
  }

  predicate IsAncestorDir(dir: string, p: string) { dir == "" || p == dir || dir + "/" <= p }

  predicate Under(dirs: set<string>, p: string) { exists dir :: dir in dirs && IsAncestorDir(dir, p) && p != dir }

  // ------------------------------------------------------------------- the code's rule

  type Layers = seq<seq<TarEntry>>

  /** isDeletedAtOrAbove: an exact whiteout also hits its own layer, an opaque directory only lower ones. */
  predicate DeletedFrom(layers: Layers, p: string, from: nat)
    requires from <= |layers|
  {
    exists j :: from <= j < |layers| && (p in WhitedOut(layers[j]) || (j != from && Under(OpaqueDirs(layers[j]), p)))
  }

  predicate Deleted(layers: Layers, i: nat, k: nat)
    requires i < |layers| && k < |layers[i]|
  {
    var p := Normalized(layers[i][k].name);
    !IsMarker(p) && DeletedFrom(layers, p, i)
  }

  // ----------------------------------------------------------------- one pass, from the top

  /** What a single pass from the top layer down has met above layer i: whiteouts and opaque directories. */
  datatype Above = Above(paths: set<string>, dirs: set<string>)

  function MetAbove(layers: Layers, i: nat): Above
    requires i <= |layers|
    decreases |layers| - i
  {
    if i == |layers| then Above({}, {})
    else
      var a := MetAbove(layers, i + 1);
      Above(a.paths + WhitedOut(layers[i]), a.dirs + OpaqueDirs(layers[i]))
  }

  predicate HiddenTopDown(layers: Layers, i: nat, k: nat)
    requires i < |layers| && k < |layers[i]|
  {
    var p := Normalized(layers[i][k].name);
    var a := MetAbove(layers, i + 1);
    !IsMarker(p) && (p in a.paths + WhitedOut(layers[i]) || Under(a.dirs, p))
  }

  lemma {:induction false} MetAboveMeans(layers: Layers, i: nat, p: string)
    requires i <= |layers|
    ensures p in MetAbove(layers, i).paths <==> exists j :: i <= j < |layers| && p in WhitedOut(layers[j])
    ensures Under(MetAbove(layers, i).dirs, p) <==> exists j :: i <= j < |layers| && Under(OpaqueDirs(layers[j]), p)
    decreases |layers| - i
  {
    hide WhitedOut, OpaqueDirs, IsAncestorDir;
    if i < |layers| { MetAboveMeans(layers, i + 1, p); }
  }

  /** The quadratic test and the single pass mark the same entries. */
  lemma TopDownAgrees(layers: Layers, i: nat, k: nat)
    requires i < |layers| && k < |layers[i]|
    ensures Deleted(layers, i, k) <==> HiddenTopDown(layers, i, k)
  {
    hide WhitedOut, OpaqueDirs, Under, IsMarker;
    MetAboveMeans(layers, i + 1, Normalized(layers[i][k].name));
  }

  // ------------------------------------------------------------- layers applied bottom-up

  function Positions(layers: Layers, j: nat): set<(nat, nat)>
    requires j < |layers|
  {
    set k | 0 <= k < |layers[j]| :: (j, k)
  }

  /** Whether layer j leaves the entry at (i, k) in place. */
  predicate Survives(layers: Layers, j: nat, i: nat, k: nat)
    requires j < |layers| && i <= j && k < |layers[i]|
  {
    var p := Normalized(layers[i][k].name);
    IsMarker(p) || (p !in WhitedOut(layers[j]) && (i < j ==> !Under(OpaqueDirs(layers[j]), p)))
  }

  /** The visible entries after applying the first n layers, lowest first. */
  ghost function Visible(layers: Layers, n: nat): (r: set<(nat, nat)>)
    requires n <= |layers|
    ensures forall x :: x in r ==> x.0 < n && x.1 < |layers[x.0]|
  {
    if n == 0 then {}
    else set x | x in Visible(layers, n - 1) + Positions(layers, n - 1) && Survives(layers, n - 1, x.0, x.1)
  }

  lemma {:induction false} VisibleMeans(layers: Layers, n: nat, i: nat, k: nat)
    requires n <= |layers| && i < n && k < |layers[i]|
    ensures (i, k) in Visible(layers, n) <==> forall j :: i <= j < n ==> Survives(layers, j, i, k)
  {
    hide Survives;
    if i < n - 1 { VisibleMeans(layers, n - 1, i, k); }
  }

  /** Applying the layers bottom-up leaves exactly the entries the walk does not mark deleted. */
  lemma BottomUpAgrees(layers: Layers, i: nat, k: nat)
    requires i < |layers| && k < |layers[i]|
    ensures (i, k) in Visible(layers, |layers|) <==> !Deleted(layers, i, k)
  {
    hide WhitedOut, OpaqueDirs, Under, IsMarker, Visible;
    VisibleMeans(layers, |layers|, i, k);
    var p := Normalized(layers[i][k].name);
    if Deleted(layers, i, k) {
      var j :| i <= j < |layers| && (p in WhitedOut(layers[j]) || (j != i && Under(OpaqueDirs(layers[j]), p)));
      assert !Survives(layers, j, i, k);
    }
  }

  // ------------------------------------------------------------ the layer specification's rule

  /** A layer above i names this very path in a whiteout. */
  predicate WhitedAbove(layers: Layers, i: nat, p: string) {
    exists j :: i < j < |layers| && p in WhitedOut(layers[j])
  }

  predicate OpaqueAbove(layers: Layers, i: nat, p: string) {
    exists j :: i < j < |layers| && Under(OpaqueDirs(layers[j]), p)
  }

  predicate Beneath(paths: set<string>, p: string) { exists w :: w in paths && w + "/" <= p }

  /** A layer above i removes a directory this path lies in. */
  predicate ParentWhitedAbove(layers: Layers, i: nat, p: string) {
    exists j :: i < j < |layers| && Beneath(WhitedOut(layers[j]), p)
  }

  /**
   * "Whiteouts" in the OCI image specification's layer chapter: a whiteout removes a path, with all there
   * is beneath it, from lower layers only, and so does an opaque marker with what is beneath its directory.
   */
  predicate HiddenBySpec(layers: Layers, i: nat, k: nat)
    requires i < |layers| && k < |layers[i]|
  {
    var p := Normalized(layers[i][k].name);
    !IsMarker(p) && (WhitedAbove(layers, i, p) || OpaqueAbove(layers, i, p) || ParentWhitedAbove(layers, i, p))
  }

  /**
   * The walk's mark agrees with the specification exactly where a higher layer names the path itself or
   * empties a directory above it, or where the two rules the code has differently cancel out: its own
   * layer's whiteout counts in the code alone, a whiteout of a parent directory in the specification alone.
   */
  lemma AgreesWithSpec(layers: Layers, i: nat, k: nat)
    requires i < |layers| && k < |layers[i]|
    ensures var p := Normalized(layers[i][k].name);
            (Deleted(layers, i, k) <==> HiddenBySpec(layers, i, k)) <==>
              IsMarker(p) || WhitedAbove(layers, i, p) || OpaqueAbove(layers, i, p) ||
              (p in WhitedOut(layers[i]) <==> ParentWhitedAbove(layers, i, p))
  {
    hide WhitedOut, OpaqueDirs, Under, Beneath, IsMarker;
    var p := Normalized(layers[i][k].name);
    DeletedParts(layers, i, p);
  }

  lemma DeletedParts(layers: Layers, i: nat, p: string)
    requires i < |layers|
    ensures DeletedFrom(layers, p, i) <==> p in WhitedOut(layers[i]) || WhitedAbove(layers, i, p) || OpaqueAbove(layers, i, p)
  {
    hide WhitedOut, OpaqueDirs, Under;
  }

  /** Both differences happen: a file beside its own whiteout, and a file beneath a directory removed above. */
  lemma SpecDiffersBothWays(c: char, file: TarEntry, mark: TarEntry)
    requires c != '/' && c != '.' && mark.name == ".wh." + [c]
    ensures file.name == [c] ==> var layers := [[file, mark]]; Deleted(layers, 0, 0) && !HiddenBySpec(layers, 0, 0)
    ensures file.name == [c] + "/x" ==> var layers := [[file], [mark]]; !Deleted(layers, 0, 0) && HiddenBySpec(layers, 0, 0)
  {
    hide Normalized, IsMarker, IsOpaque, Target, IsAncestorDir;
    WhiteoutOf(c);
    if file.name == [c] {
      PlainName(c);
      assert file in [file, mark] && mark in [file, mark];
      assert [c] in WhitedOut([[file, mark]][0]);
    } else if file.name == [c] + "/x" {
      NestedName(c);
      var layers := [[file], [mark]];
      assert mark in layers[1] && [c] in WhitedOut(layers[1]);
      assert [c] + "/" <= [c] + "/x";
      assert Beneath(WhitedOut(layers[1]), [c] + "/x");
      assert ParentWhitedAbove(layers, 0, [c] + "/x");
      assert WhitedOut(layers[0]) == {} && OpaqueDirs(layers[1]) == {};
      assert [c] + "/x" !in WhitedOut(layers[1]);
    }
  }

  lemma PlainName(c: char)
    requires c != '/' && c != '.'
    ensures Normalized([c]) == [c] && !IsMarker([c]) && !IsOpaque([c])
  {
    var name := [c];
    assert name[0] == c && |name| == 1;
    assert StripLead(name) == name;
    assert LastSlash(name) == -1;
    assert BaseName(name) == name;
    assert |WHITEOUT| == 4 && |OPAQUE_MARKER| == 12;
  }

  lemma NestedName(c: char)
    requires c != '/' && c != '.'
    ensures var name := [c] + "/x"; Normalized(name) == name && !IsMarker(name) && !IsOpaque(name)
  {
    var name := [c] + "/x";
    assert name[0] == c && name[1] == '/' && name[2] == 'x' && |name| == 3;
    assert StripLead(name) == name;
    assert LastSlash(name) == 1;
    assert BaseName(name) == name[2..] == "x";
  }

  lemma WhiteoutOf(c: char)
    requires c != '/' && c != '.'
    ensures var name := ".wh." + [c];
            Normalized(name) == name && IsMarker(name) && !IsOpaque(name) && Target(name) == [c]
  {
    var name := ".wh." + [c];
    assert name[0] == '.' && name[1] == 'w' && name[4] == c && |name| == 5;
    assert StripLead(name) == name;
    assert forall i :: 0 <= i < |name| ==> name[i] != '/';
    assert LastSlash(name) == -1;
    assert BaseName(name) == name;
    assert |WHITEOUT| == 4 && name[..4] == WHITEOUT && name[4..] == [c];
    assert |OPAQUE_MARKER| == 12;
  }

  // ------------------------------------------------------------------------- the walk

  function ReadLayer(tools: Tools, blobs: map<string, Bytes>, d: Descriptor): Result<seq<TarEntry>> {
    match Validated(tools, d, blobs)
    case Err(e) => Err(e)
    case Ok(bytes) =>
      var entries := tools.untar(bytes, d.mediaType);
      if entries.None? then Err(CorruptLayer)
      else if exists e :: e in entries.value && Climbs(e.name) then Err(PathTraversal)
      else Ok(entries.value)
  }

  function ReadLayers(tools: Tools, blobs: map<string, Bytes>, ds: seq<Descriptor>): (r: Result<Layers>)
    ensures r.Ok? ==> |r.value| == |ds|
  {
    if ds == [] then Ok([])
    else
      var n := |ds| - 1;
      match ReadLayers(tools, blobs, ds[..n])
      case Err(e) => Err(e)
      case Ok(lower) =>
        match ReadLayer(tools, blobs, ds[n])
        case Err(e) => Err(e)
        case Ok(entries) => Ok(lower + [entries])
  }

  function Annotated(layers: Layers, ds: seq<Descriptor>, i: nat, k: nat): LayerEntry
    requires |ds| == |layers| && i < |layers| && k < |layers[i]|
  {
    var p := Normalized(layers[i][k].name);
    LayerEntry(layers[i][k], p, i, ds[i].digest, Deleted(layers, i, k), IsMarker(p))
  }

  function LayerOf(layers: Layers, ds: seq<Descriptor>, i: nat): (r: seq<LayerEntry>)
    requires |ds| == |layers| && i < |layers|
    ensures |r| == |layers[i]|
  {
    seq(|layers[i]|, k requires 0 <= k < |layers[i]| => Annotated(layers, ds, i, k))
  }

  /** The annotated entries of the first n layers. */
  function Walked(layers: Layers, ds: seq<Descriptor>, n: nat): seq<LayerEntry>
    requires |ds| == |layers| && n <= |layers|
  {
    if n == 0 then [] else Walked(layers, ds, n - 1) + LayerOf(layers, ds, n - 1)
  }

  function WalkAllLayers(tools: Tools, blobs: map<string, Bytes>, ds: seq<Descriptor>): Result<seq<LayerEntry>> {
    match ReadLayers(tools, blobs, ds)
    case Err(e) => Err(e)
    case Ok(layers) => Ok(Walked(layers, ds, |layers|))
  }

  /** Where layer i starts in the returned list. */
  function Offset(layers: Layers, i: nat): nat
    requires i <= |layers|
  {
    if i == 0 then 0 else Offset(layers, i - 1) + |layers[i - 1]|
  }

  lemma {:induction false} WalkedLength(layers: Layers, ds: seq<Descriptor>, n: nat)
    requires |ds| == |layers| && n <= |layers|
    ensures |Walked(layers, ds, n)| == Offset(layers, n)
  {
    hide Annotated;
    if n > 0 { WalkedLength(layers, ds, n - 1); }
  }

  /** Every entry of every layer is returned once, in order: the list is the layers laid end to end. */
  lemma {:induction false} EveryEntryOnce(layers: Layers, ds: seq<Descriptor>, n: nat, i: nat, k: nat)
    requires |ds| == |layers| && i < n <= |layers| && k < |layers[i]|
    ensures |Walked(layers, ds, n)| == Offset(layers, n) && Offset(layers, i) + k < Offset(layers, n)
    ensures Walked(layers, ds, n)[Offset(layers, i) + k] == Annotated(layers, ds, i, k)
  {
    hide Annotated;
    WalkedLength(layers, ds, n);
    WalkedLength(layers, ds, n - 1);
    if i < n - 1 {
      EveryEntryOnce(layers, ds, n - 1, i, k);
    } else {
      assert Walked(layers, ds, n)[|Walked(layers, ds, n - 1)| + k] == LayerOf(layers, ds, n - 1)[k];
    }
  }

  // -------------------------------------------------------------------- the procedure

  /** walkAllLayers: one loop reads, one collects the markers per layer, one annotates. */
  method Walk(tools: Tools, blobs: map<string, Bytes>, ds: seq<Descriptor>) returns (r: Result<seq<LayerEntry>>)
    ensures r == WalkAllLayers(tools, blobs, ds)
  {
    hide ReadLayer, Walked;
    var layers: Layers := [];
    var i := 0;
    while i < |ds|
      invariant 0 <= i <= |ds| && ReadLayers(tools, blobs, ds[..i]) == Ok(layers)
    {
      assert ds[..i + 1][..i] == ds[..i];
      var entries := ReadLayer(tools, blobs, ds[i]);
      if entries.Err? {
        ReadStops(tools, blobs, ds, i);
        return Err(entries.error);
      }
      layers := layers + [entries.value];
      i := i + 1;
    }
    assert ds[..i] == ds;
    var whiteouts, opaques := CollectMarks(layers);
    var all := Annotate(layers, ds, whiteouts, opaques);
    r := Ok(all);
  }

  lemma {:induction false} ReadStops(tools: Tools, blobs: map<string, Bytes>, ds: seq<Descriptor>, i: nat)
    requires i < |ds| && ReadLayers(tools, blobs, ds[..i]).Ok? && ReadLayer(tools, blobs, ds[i]).Err?
    ensures ReadLayers(tools, blobs, ds) == Err(ReadLayer(tools, blobs, ds[i]).error)
    decreases |ds|
  {
    hide ReadLayer;
    var n := |ds| - 1;
    if i < n {
      assert ds[..n][..i] == ds[..i];
      ReadStops(tools, blobs, ds[..n], i);
    }
  }

  method CollectMarks(layers: Layers) returns (whiteouts: seq<set<string>>, opaques: seq<set<string>>)
    ensures |whiteouts| == |opaques| == |layers|
    ensures forall i :: 0 <= i < |layers| ==> whiteouts[i] == WhitedOut(layers[i]) && opaques[i] == OpaqueDirs(layers[i])
  {
    whiteouts, opaques := [], [];
    var i := 0;
    while i < |layers|
      invariant 0 <= i <= |layers| && |whiteouts| == |opaques| == i
      invariant forall j :: 0 <= j < i ==> whiteouts[j] == WhitedOut(layers[j]) && opaques[j] == OpaqueDirs(layers[j])
    {
      var wh, opq := MarksOf(layers[i]);
      whiteouts, opaques := whiteouts + [wh], opaques + [opq];
      i := i + 1;
    }
  }

  method MarksOf(entries: seq<TarEntry>) returns (wh: set<string>, opq: set<string>)
    ensures wh == WhitedOut(entries) && opq == OpaqueDirs(entries)
  {
    hide Normalized, BaseName, DirName;
    wh, opq := {}, {};
    var k := 0;
    while k < |entries|
      invariant 0 <= k <= |entries| && wh == WhitedOut(entries[..k]) && opq == OpaqueDirs(entries[..k])
    {
      assert entries[..k + 1] == entries[..k] + [entries[k]];
      var p := Normalized(entries[k].name);
      if BaseName(p) == OPAQUE_MARKER { opq := opq + {DirName(p)}; }
      else if WHITEOUT <= BaseName(p) { wh := wh + {Target(p)}; }
      k := k + 1;
    }
    assert entries[..k] == entries;
  }

  /** isDeletedAtOrAbove, over the collected sets. */
  method IsDeletedAtOrAbove(layers: Layers, whiteouts: seq<set<string>>, opaques: seq<set<string>>, p: string, from: nat) returns (deleted: bool)
    requires |whiteouts| == |opaques| == |layers| && from <= |layers|
    requires forall i :: 0 <= i < |layers| ==> whiteouts[i] == WhitedOut(layers[i]) && opaques[i] == OpaqueDirs(layers[i])
    ensures deleted == DeletedFrom(layers, p, from)
  {
    hide WhitedOut, OpaqueDirs, Under;
    var j := from;
    while j < |layers|
      invariant from <= j <= |layers|
      invariant forall m :: from <= m < j ==> p !in WhitedOut(layers[m]) && (m == from || !Under(OpaqueDirs(layers[m]), p))
    {
      if p in whiteouts[j] { return true; }
      if j != from && Under(opaques[j], p) { return true; }
      j := j + 1;
    }
    deleted := false;
  }

  method Annotate(layers: Layers, ds: seq<Descriptor>, whiteouts: seq<set<string>>, opaques: seq<set<string>>) returns (all: seq<LayerEntry>)
    requires |ds| == |layers| == |whiteouts| == |opaques|
    requires forall i :: 0 <= i < |layers| ==> whiteouts[i] == WhitedOut(layers[i]) && opaques[i] == OpaqueDirs(layers[i])
    ensures all == Walked(layers, ds, |layers|)
  {
    hide WhitedOut, OpaqueDirs, DeletedFrom, Normalized, IsMarker;
    all := [];
    var i := 0;
    while i < |layers|
      invariant 0 <= i <= |layers| && all == Walked(layers, ds, i)
    {
      var k := 0;
      while k < |layers[i]|
        invariant 0 <= k <= |layers[i]| && all == Walked(layers, ds, i) + LayerOf(layers, ds, i)[..k]
      {
        var p := Normalized(layers[i][k].name);
        var deleted := false;
        if !IsMarker(p) { deleted := IsDeletedAtOrAbove(layers, whiteouts, opaques, p, i); }
        all := all + [LayerEntry(layers[i][k], p, i, ds[i].digest, deleted, IsMarker(p))];
        k := k + 1;
      }
      i := i + 1;
    }
  }
}
