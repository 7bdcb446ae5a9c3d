/** The gate's verdict on one layout, said of its blobs, its index and its entries' names. */
module OciMeaning {
  import opened A2aDoc
  import opened OciLayers
  import opened OciGate
  import Text

  // --------------------------------------------------------------------------- blobs

  /** The layout holds this blob, of the declared size and digest. */
  predicate Verified(tools: Tools, blobs: map<string, Bytes>, d: Descriptor) {
    d.digest in blobs && |blobs[d.digest]| == d.size && tools.sha256(blobs[d.digest]) == d.digest
  }

  /** A nested index is one of the two index types, whose verified blob parses. */
  lemma NestedMeans(tools: Tools, blobs: map<string, Bytes>, d: Descriptor)
    ensures IsIndex(d) <==>
              d.mediaType in {"application/vnd.oci.image.index.v1+json", "application/vnd.docker.distribution.manifest.list.v2+json"}
    ensures Nested(tools, blobs, d).Ok? <==> Verified(tools, blobs, d) && tools.parseIndex(blobs[d.digest]).Ok?
    ensures Nested(tools, blobs, d).Ok? ==> Nested(tools, blobs, d) == tools.parseIndex(blobs[d.digest])
  {
  }

  // --------------------------------------------------------------------- entries' names

  /** Nothing but leading slashes and dot-slashes. */
  predicate IsLead(s: string) {
    s == "" || (s[0] == '/' && IsLead(s[1..])) || (|s| >= 2 && s[..2] == "./" && IsLead(s[2..]))
  }

  lemma LeadGrows(lead: string)
    requires IsLead(lead)
    ensures IsLead("/" + lead) && IsLead("./" + lead)
  {
    assert ("/" + lead)[1..] == lead && ("./" + lead)[2..] == lead && ("./" + lead)[..2] == "./";
  }

  lemma StripSteps(name: string)
    ensures StripLead(name) == if "./" <= name then StripLead(name[2..]) else if "/" <= name then StripLead(name[1..]) else name
  {
  }

  lemma PutBefore(a: string, b: string, c: string)
    ensures (a + b) + c == a + (b + c)
  {
  }

  lemma {:induction false} LeadMeans(name: string) returns (lead: string)
    ensures IsLead(lead) && name == lead + StripLead(name) && !("/" <= StripLead(name)) && !("./" <= StripLead(name))
  {
    hide IsLead, StripLead;
    StripSteps(name);
    NoLead();
    lead := "";
    if "./" <= name {
      var rest := LeadMeans(name[2..]);
      LeadGrows(rest);
      PutBefore("./", rest, StripLead(name));
      lead := "./" + rest;
      assert name == name[..2] + name[2..];
    } else if "/" <= name {
      var rest := LeadMeans(name[1..]);
      LeadGrows(rest);
      PutBefore("/", rest, StripLead(name));
      lead := "/" + rest;
      assert name == name[..1] + name[1..];
    } else {
      assert name == "" + name;
    }
  }

  lemma NoLead()
    ensures IsLead("")
  {
  }

  /** A stored name is the entry's name without its leading slashes and dot-slashes and without one trailing slash. */
  lemma NormalizedMeans(name: string) returns (lead: string, tail: string)
    ensures name == lead + Normalized(name) + tail && IsLead(lead) && (tail == "" || tail == "/")
    ensures !("/" <= Normalized(name) + tail) && !("./" <= Normalized(name) + tail)
    ensures tail == "" ==> Normalized(name) == "" || Normalized(name)[|Normalized(name)| - 1] != '/'
  {
    hide StripLead, IsLead;
    lead := LeadMeans(name);
    var s := StripLead(name);
    tail := if s != "" && s[|s| - 1] == '/' then "/" else "";
    assert s == Normalized(name) + tail;
    assert name == lead + (Normalized(name) + tail);
  }

  /** A name in a directory; the root is "". */
  function InDir(dir: string, base: string): string { if dir == "" then base else dir + "/" + base }

  lemma PathParts(p: string, dir: string, base: string)
    requires '/' !in base && p == InDir(dir, base)
    ensures DirName(p) == dir && BaseName(p) == base
  {
    if dir != "" {
      assert p[|dir|] == '/';
      assert forall i :: |dir| < i < |p| ==> p[i] == base[i - |dir| - 1];
      assert LastSlash(p) == |dir|;
    }
  }

  lemma SlashBetween(p: string, n: int)
    requires 0 <= n < |p| && p[n] == '/'
    ensures p == p[..n] + "/" + p[n + 1..]
  {
  }

  lemma BaseIsFree(p: string)
    ensures '/' !in BaseName(p)
  {
    hide LastSlash;
  }

  lemma PartsJoin(p: string)
    requires p == "" || p[0] != '/'
    ensures p == InDir(DirName(p), BaseName(p)) && '/' !in BaseName(p)
  {
    BaseIsFree(p);
    hide LastSlash;
    var n := LastSlash(p);
    if n == -1 {
      assert p[0..] == p;
    } else {
      assert n != 0;
      SlashBetween(p, n);
    }
  }

  /** The entry is the mark that removes `base` from the directory. */
  ghost predicate Removes(name: string, dir: string, base: string) {
    '/' !in base && base != ".wh..opq" && Normalized(name) == InDir(dir, ".wh." + base)
  }

  /** The entry is the mark that empties the directory. */
  ghost predicate Empties(name: string, dir: string) { Normalized(name) == InDir(dir, ".wh..wh..opq") }

  /** A mark, of whichever kind. */
  ghost predicate IsMark(p: string) { exists dir, base :: '/' !in base && p == InDir(dir, ".wh." + base) }

  lemma NormalizedHasNoLead(name: string)
    ensures Normalized(name) == "" || Normalized(name)[0] != '/'
  {
    var lead, tail := NormalizedMeans(name);
    var p := Normalized(name);
    assert "/" <= p + tail <==> p + tail != "" && (p + tail)[0] == '/';
  }

  lemma MarkMeans(name: string)
    ensures IsMarker(Normalized(name)) <==> IsMark(Normalized(name))
    ensures forall dir, base :: Removes(name, dir, base) ==> IsMarker(Normalized(name)) && !IsOpaque(Normalized(name)) && Target(Normalized(name)) == InDir(dir, base)
    ensures forall dir :: Empties(name, dir) ==> IsOpaque(Normalized(name)) && DirName(Normalized(name)) == dir
  {
    hide Normalized, DirName, BaseName, InDir;
    var p := Normalized(name);
    NormalizedHasNoLead(name);
    PartsJoin(p);
    if IsMarker(p) {
      var base := BaseName(p)[4..];
      assert BaseName(p) == ".wh." + base;
      assert '/' !in base;
    }
    forall dir, base | '/' !in base && p == InDir(dir, ".wh." + base)
      ensures IsMarker(p) && Target(p) == InDir(dir, base) && (base != ".wh..opq" ==> !IsOpaque(p))
    {
      MarkParts(p, dir, base);
    }
    forall dir | Empties(name, dir) ensures IsOpaque(p) && DirName(p) == dir { PathParts(p, dir, ".wh..wh..opq"); }
  }

  lemma MarkParts(p: string, dir: string, base: string)
    requires '/' !in base && p == InDir(dir, ".wh." + base)
    ensures IsMarker(p) && Target(p) == InDir(dir, base) && DirName(p) == dir && (IsOpaque(p) <==> base == ".wh..opq")
  {
    hide DirName, BaseName;
    PathParts(p, dir, ".wh." + base);
    assert (".wh." + base)[4..] == base;
    assert OPAQUE_MARKER == ".wh." + ".wh..opq";
    if ".wh." + base == OPAQUE_MARKER { assert base == OPAQUE_MARKER[4..]; }
  }

  lemma MarkSplits(name: string) returns (dir: string, base: string)
    requires IsMarker(Normalized(name))
    ensures var p := Normalized(name);
            '/' !in base && p == InDir(dir, ".wh." + base) && Target(p) == InDir(dir, base) && DirName(p) == dir && (IsOpaque(p) <==> base == ".wh..opq")
  {
    hide Normalized, DirName, BaseName, InDir;
    var p := Normalized(name);
    NormalizedHasNoLead(name);
    PartsJoin(p);
    dir, base := DirName(p), BaseName(p)[4..];
    assert BaseName(p) == ".wh." + base;
    assert forall i :: 0 <= i < |base| ==> base[i] == BaseName(p)[i + 4];
    MarkParts(p, dir, base);
  }

  /** Which paths a layer's whiteouts name. */
  lemma WhiteoutsMean(entries: seq<TarEntry>, p: string)
    ensures p in WhitedOut(entries) <==> exists e, dir, base :: e in entries && Removes(e.name, dir, base) && p == InDir(dir, base)
  {
    hide Normalized, DirName, BaseName, InDir, IsMarker, IsOpaque, Removes;
    forall e, dir, base | e in entries && Removes(e.name, dir, base) && p == InDir(dir, base) ensures p in WhitedOut(entries) { MarkMeans(e.name); }
    if p in WhitedOut(entries) {
      var e :| e in entries && IsMarker(Normalized(e.name)) && !IsOpaque(Normalized(e.name)) && p == Target(Normalized(e.name));
      var dir, base := MarkSplits(e.name);
      IsRemoval(e.name, dir, base);
      assert Removes(e.name, dir, base);
    }
  }

  lemma IsRemoval(name: string, dir: string, base: string)
    requires '/' !in base && base != ".wh..opq" && Normalized(name) == InDir(dir, ".wh." + base)
    ensures Removes(name, dir, base)
  {
  }

  /** Which directories its opaque marks empty. */
  lemma OpaquesMean(entries: seq<TarEntry>, p: string)
    ensures p in OpaqueDirs(entries) <==> exists e :: e in entries && Empties(e.name, p)
  {
    hide Normalized, DirName, BaseName, InDir, IsMarker;
    forall e | e in entries && Empties(e.name, p) ensures p in OpaqueDirs(entries) { MarkMeans(e.name); }
    if p in OpaqueDirs(entries) {
      var e :| e in entries && IsOpaque(Normalized(e.name)) && p == DirName(Normalized(e.name));
      OpaqueIsMarker(Normalized(e.name));
      var dir, base := MarkSplits(e.name);
      assert ".wh." + base == ".wh..wh..opq";
      assert Empties(e.name, p);
    }
  }

  lemma OpaqueIsMarker(p: string)
    requires IsOpaque(p)
    ensures IsMarker(p)
  {
    assert OPAQUE_MARKER[..4] == WHITEOUT;
  }

  /** p lies in the directory, at whatever depth; everything but the root lies in the root. */
  ghost predicate LiesIn(p: string, dir: string) { if dir == "" then p != "" else dir + "/" <= p }

  /** A layer from this one up removes the very path, or a layer above empties a directory it lies in. */
  ghost predicate Hidden(layers: Layers, i: nat, p: string) {
    (exists j, e, dir, base :: i <= j < |layers| && e in layers[j] && Removes(e.name, dir, base) && p == InDir(dir, base)) ||
    (exists j, e, dir :: i < j < |layers| && e in layers[j] && Empties(e.name, dir) && LiesIn(p, dir))
  }

  /** When an entry is annotated as deleted: it is no mark itself, and some mark hides it. */
  lemma DeletedMeans(layers: Layers, i: nat, k: nat)
    requires i < |layers| && k < |layers[i]|
    ensures var p := Normalized(layers[i][k].name); Deleted(layers, i, k) <==> !IsMark(p) && Hidden(layers, i, p)
  {
    hide Normalized, WhitedOut, OpaqueDirs, InDir, IsMarker, IsMark, Removes, Empties;
    var p := Normalized(layers[i][k].name);
    MarkMeans(layers[i][k].name);
    forall j | i <= j < |layers|
      ensures p in WhitedOut(layers[j]) <==> exists e, dir, base :: e in layers[j] && Removes(e.name, dir, base) && p == InDir(dir, base)
      ensures Under(OpaqueDirs(layers[j]), p) <==> exists e, dir :: e in layers[j] && Empties(e.name, dir) && LiesIn(p, dir)
    {
      WhiteoutsMean(layers[j], p);
      EmptiedAbove(layers[j], p);
    }
  }

  lemma EmptiedAbove(entries: seq<TarEntry>, p: string)
    ensures Under(OpaqueDirs(entries), p) <==> exists e, dir :: e in entries && Empties(e.name, dir) && LiesIn(p, dir)
  {
    hide OpaqueDirs, Empties;
    forall dir ensures dir in OpaqueDirs(entries) <==> exists e :: e in entries && Empties(e.name, dir) { OpaquesMean(entries, dir); }
    forall dir ensures IsAncestorDir(dir, p) && p != dir <==> LiesIn(p, dir) {
      if dir != "" && dir + "/" <= p { assert |p| > |dir|; }
    }
  }

  // -------------------------------------------------------------------- parent segments

  predicate ClimbsIn(s: string) { exists i :: 0 <= i <= |s| && ClimbsAt(s, i) }

  lemma ClimbsInMeans(s: string)
    ensures ClimbsIn(s) <==> ".." in Text.SplitOn(s, '/')
  {
    hide Text.SplitOn;
    Text.PieceMeans(s, '/', "..");
    forall i | 0 <= i <= |s| && ClimbsAt(s, i) ensures Text.HasPiece(s, '/', "..") {
      assert s[i..i + 2] == ".." && s[i] == s[i..i + 2][0] && s[i + 1] == s[i..i + 2][1];
      assert Text.IsPiece(s, '/', i, i + 2);
    }
    forall i, j | 0 <= i <= j <= |s| && Text.IsPiece(s, '/', i, j) && s[i..j] == ".." ensures ClimbsAt(s, i) {
      assert j == i + 2;
    }
  }

  lemma {:induction false} LeadHasNoParent(name: string)
    ensures ".." in Text.SplitOn(name, '/') <==> ".." in Text.SplitOn(StripLead(name), '/')
  {
    hide StripLead, Text.SplitOn;
    StripSteps(name);
    if "./" <= name {
      LeadHasNoParent(name[2..]);
      Text.SplitPiece(".", '/', name[2..]);
      assert name == "." + (['/'] + name[2..]);
    } else if "/" <= name {
      LeadHasNoParent(name[1..]);
      Text.SplitPiece("", '/', name[1..]);
      assert name == "" + (['/'] + name[1..]);
    }
  }

  /** An entry is refused for its name exactly if one of the name's pieces between slashes is two dots. */
  lemma ClimbsMeans(name: string)
    ensures Climbs(name) <==> ".." in Text.SplitOn(name, '/')
  {
    hide StripLead, Text.SplitOn, ClimbsAt;
    LeadHasNoParent(name);
    ClimbsInMeans(StripLead(name));
  }

  // -------------------------------------------------------------------------- layers

  /** A layer whose blob is verified and unpacks into entries none of which climbs. */
  ghost predicate LayerFits(tools: Tools, blobs: map<string, Bytes>, d: Descriptor) {
    Verified(tools, blobs, d) && tools.untar(blobs[d.digest], d.mediaType).Some? &&
    forall e :: e in tools.untar(blobs[d.digest], d.mediaType).value ==> ".." !in Text.SplitOn(e.name, '/')
  }

  lemma LayerMeans(tools: Tools, blobs: map<string, Bytes>, d: Descriptor)
    ensures ReadLayer(tools, blobs, d).Ok? <==> LayerFits(tools, blobs, d)
    ensures ReadLayer(tools, blobs, d).Ok? ==> ReadLayer(tools, blobs, d).value == tools.untar(blobs[d.digest], d.mediaType).value
  {
    hide Climbs, Text.SplitOn;
    forall name ensures Climbs(name) <==> ".." in Text.SplitOn(name, '/') { ClimbsMeans(name); }
  }

  /** The layers as they unpack. */
  ghost predicate Unpacked(tools: Tools, blobs: map<string, Bytes>, ds: seq<Descriptor>, layers: Layers) {
    |layers| == |ds| &&
    forall i :: 0 <= i < |ds| ==> ds[i].digest in blobs && tools.untar(blobs[ds[i].digest], ds[i].mediaType) == Some(layers[i])
  }

  lemma {:induction false} LayersMean(tools: Tools, blobs: map<string, Bytes>, ds: seq<Descriptor>)
    ensures ReadLayers(tools, blobs, ds).Ok? <==> forall i :: 0 <= i < |ds| ==> LayerFits(tools, blobs, ds[i])
    ensures ReadLayers(tools, blobs, ds).Ok? ==> Unpacked(tools, blobs, ds, ReadLayers(tools, blobs, ds).value)
  {
    hide ReadLayer;
    if ds != [] {
      var n := |ds| - 1;
      LayersMean(tools, blobs, ds[..n]);
      LayerMeans(tools, blobs, ds[n]);
      hide LayerFits;
      assert forall i :: 0 <= i < n ==> ds[..n][i] == ds[i];
      if ReadLayers(tools, blobs, ds).Ok? { LayerFitsHas(tools, blobs, ds[n]); }
    }
  }

  lemma LayerFitsHas(tools: Tools, blobs: map<string, Bytes>, d: Descriptor)
    requires LayerFits(tools, blobs, d)
    ensures d.digest in blobs && tools.untar(blobs[d.digest], d.mediaType).Some?
  {
  }

  /** One walked entry: the tar entry, its stored name, its layer, and the two marks. */
  ghost predicate IsWalked(layers: Layers, ds: seq<Descriptor>, i: nat, k: nat, e: LayerEntry)
    requires |ds| == |layers| && i < |layers| && k < |layers[i]|
  {
    e.entry == layers[i][k] && e.name == Normalized(layers[i][k].name) && e.layerIndex == i && e.layerDigest == ds[i].digest &&
    (e.isMarker <==> IsMark(e.name)) && (e.deleted <==> !IsMark(e.name) && Hidden(layers, i, e.name))
  }

  /** Entries before layer i. */
  function Before(layers: Layers, i: nat): nat
    requires i <= |layers|
  {
    if i == 0 then 0 else Before(layers, i - 1) + |layers[i - 1]|
  }

  /** All layers' entries end to end. */
  ghost predicate WalkOf(layers: Layers, ds: seq<Descriptor>, entries: seq<LayerEntry>)
    requires |ds| == |layers|
  {
    |entries| == Before(layers, |layers|) &&
    forall i, k :: 0 <= i < |layers| && 0 <= k < |layers[i]| ==> WalkedAt(layers, ds, entries, i, k)
  }

  /** Entry k of layer i comes after all entries of the layers below and the k before it. */
  ghost predicate WalkedAt(layers: Layers, ds: seq<Descriptor>, entries: seq<LayerEntry>, i: nat, k: nat)
    requires |ds| == |layers| && i < |layers| && k < |layers[i]|
  {
    Before(layers, i) + k < |entries| && IsWalked(layers, ds, i, k, entries[Before(layers, i) + k])
  }

  lemma {:induction false} BeforeIsOffset(layers: Layers, i: nat)
    requires i <= |layers|
    ensures Before(layers, i) == Offset(layers, i)
  {
    if i > 0 { BeforeIsOffset(layers, i - 1); }
  }

  /** A walk succeeds exactly if every layer fits, and returns every entry of every layer once, in order and marked. */
  lemma WalkMeans(tools: Tools, blobs: map<string, Bytes>, ds: seq<Descriptor>) returns (layers: Layers)
    ensures WalkAllLayers(tools, blobs, ds).Ok? <==> forall i :: 0 <= i < |ds| ==> LayerFits(tools, blobs, ds[i])
    ensures WalkAllLayers(tools, blobs, ds).Ok? ==>
              Unpacked(tools, blobs, ds, layers) && WalkOf(layers, ds, WalkAllLayers(tools, blobs, ds).value)
  {
    hide LayerFits, ReadLayers, Walked, IsWalked;
    LayersMean(tools, blobs, ds);
    layers := [];
    if ReadLayers(tools, blobs, ds).Ok? {
      layers := ReadLayers(tools, blobs, ds).value;
      WalkedMeans(layers, ds);
    }
  }

  lemma WalkedMeans(layers: Layers, ds: seq<Descriptor>)
    requires |ds| == |layers|
    ensures WalkOf(layers, ds, Walked(layers, ds, |layers|))
  {
    hide Walked, IsWalked, Annotated;
    WalkedLength(layers, ds, |layers|);
    BeforeIsOffset(layers, |layers|);
    var entries := Walked(layers, ds, |layers|);
    forall i, k | 0 <= i < |layers| && 0 <= k < |layers[i]| ensures WalkedAt(layers, ds, entries, i, k) {
      BeforeIsOffset(layers, i);
      EveryEntryOnce(layers, ds, |layers|, i, k);
      AnnotatedMeans(layers, ds, i, k);
    }
  }

  lemma AnnotatedMeans(layers: Layers, ds: seq<Descriptor>, i: nat, k: nat)
    requires |ds| == |layers| && i < |layers| && k < |layers[i]|
    ensures IsWalked(layers, ds, i, k, Annotated(layers, ds, i, k))
  {
    hide Normalized, Deleted, IsMarker, IsMark, Hidden;
    DeletedMeans(layers, i, k);
    MarkMeans(layers[i][k].name);
  }

  // ------------------------------------------------------------------------- verdict

  /** Leaf i is the only one that is no attestation. */
  ghost predicate OnlyImage(leaves: seq<Descriptor>, i: int) {
    0 <= i < |leaves| && !leaves[i].attestation && forall j :: 0 <= j < |leaves| && j != i ==> leaves[j].attestation
  }

  /** It names no platform, or the one asked for. */
  ghost predicate PlatformFits(p: Platform, platform: string) {
    match p
    case Absent => true
    case Platform(os, architecture) => os + "/" + architecture == platform
    case Odd(key) => key == platform
  }

  /** The image's manifest is verified and parses, its layers fit and are clean, its config is verified JSON and clean. */
  ghost predicate ImageFits(tools: Tools, blobs: map<string, Bytes>, d: Descriptor) {
    Verified(tools, blobs, d) && tools.parseManifest(blobs[d.digest]).Ok? &&
    var m := tools.parseManifest(blobs[d.digest]).value;
    (forall i :: 0 <= i < |m.layers| ==> LayerFits(tools, blobs, m.layers[i])) && EntriesClean(tools, blobs, m.layers) &&
    Verified(tools, blobs, m.config) && tools.isJson(blobs[m.config.digest]) && tools.cleanConfig(blobs[m.config.digest])
  }

  ghost predicate EntriesClean(tools: Tools, blobs: map<string, Bytes>, ds: seq<Descriptor>) {
    exists layers, entries :: |layers| == |ds| && Unpacked(tools, blobs, ds, layers) && WalkOf(layers, ds, entries) && tools.cleanEntries(entries)
  }

  lemma {:induction false} BeforeFinds(layers: Layers, n: nat, x: int) returns (i: nat, k: nat)
    requires n <= |layers| && 0 <= x < Before(layers, n)
    ensures i < n && k < |layers[i]| && x == Before(layers, i) + k
  {
    if x < Before(layers, n - 1) { i, k := BeforeFinds(layers, n - 1, x); } else { i, k := n - 1, x - Before(layers, n - 1); }
  }

  /** There is only one walk of given layers. */
  lemma WalkIsUnique(layers: Layers, ds: seq<Descriptor>, a: seq<LayerEntry>, b: seq<LayerEntry>)
    requires |ds| == |layers| && WalkOf(layers, ds, a) && WalkOf(layers, ds, b)
    ensures a == b
  {
    hide IsMark, Hidden, Normalized;
    forall x | 0 <= x < |a| ensures a[x] == b[x] {
      var i, k := BeforeFinds(layers, |layers|, x);
      assert WalkedAt(layers, ds, a, i, k) && WalkedAt(layers, ds, b, i, k);
    }
  }

  lemma CleanMeans(tools: Tools, blobs: map<string, Bytes>, ds: seq<Descriptor>)
    requires WalkAllLayers(tools, blobs, ds).Ok?
    ensures tools.cleanEntries(WalkAllLayers(tools, blobs, ds).value) <==> EntriesClean(tools, blobs, ds)
  {
    hide WalkAllLayers, WalkOf, LayerFits;
    var mine := WalkMeans(tools, blobs, ds);
    forall layers, entries | |layers| == |ds| && Unpacked(tools, blobs, ds, layers) && WalkOf(layers, ds, entries)
      ensures entries == WalkAllLayers(tools, blobs, ds).value
    {
      assert layers == mine;
      WalkIsUnique(layers, ds, entries, WalkAllLayers(tools, blobs, ds).value);
    }
  }

  lemma ImageMeans(tools: Tools, blobs: map<string, Bytes>, d: Descriptor)
    ensures (LoadManifest(tools, blobs, d).Ok? && ScanImage(tools, blobs, LoadManifest(tools, blobs, d).value).Ok?) <==> ImageFits(tools, blobs, d)
    ensures ImageFits(tools, blobs, d) ==>
              LoadManifest(tools, blobs, d) == tools.parseManifest(blobs[d.digest]) &&
              ScanImage(tools, blobs, LoadManifest(tools, blobs, d).value).Ok? &&
              WalkAllLayers(tools, blobs, LoadManifest(tools, blobs, d).value.layers).Ok? &&
              ScanImage(tools, blobs, LoadManifest(tools, blobs, d).value).value ==
                |WalkAllLayers(tools, blobs, LoadManifest(tools, blobs, d).value.layers).value|
  {
    hide WalkAllLayers, EntriesClean, LayerFits;
    if LoadManifest(tools, blobs, d).Ok? {
      var m := LoadManifest(tools, blobs, d).value;
      var layers := WalkMeans(tools, blobs, m.layers);
      if WalkAllLayers(tools, blobs, m.layers).Ok? { CleanMeans(tools, blobs, m.layers); }
    }
  }

  lemma {:induction false} KindCount(leaves: seq<Descriptor>)
    ensures |OfKind(leaves, false)| == 0 <==> forall i :: 0 <= i < |leaves| ==> leaves[i].attestation
    ensures forall d :: d in OfKind(leaves, true) <==> d in leaves && d.attestation
    ensures forall i :: OnlyImage(leaves, i) ==> OfKind(leaves, false) == [leaves[i]]
    ensures |OfKind(leaves, false)| == 1 ==> exists i :: OnlyImage(leaves, i)
  {
    if leaves != [] {
      var n := |leaves| - 1;
      var init := leaves[..n];
      assert leaves == init + [leaves[n]];
      KindCount(init);
      forall i | OnlyImage(leaves, i) ensures OfKind(leaves, false) == [leaves[i]] {
        if i < n { assert OnlyImage(init, i); }
      }
      if |OfKind(leaves, false)| == 1 {
        if leaves[n].attestation {
          var i :| OnlyImage(init, i);
          assert OnlyImage(leaves, i);
        } else {
          assert OnlyImage(leaves, n);
        }
      }
    }
  }

  /** The whole verdict on a layout. */
  ghost predicate LayoutFits(tools: Tools, layout: Layout, platform: string) {
    layout.index != [] && Sound(tools, layout.blobs, layout.index, 8) &&
    var leaves := Leaves(tools, layout.blobs, layout.index, 8);
    (forall d :: d in leaves && d.attestation ==> Verified(tools, layout.blobs, d)) &&
    exists i :: OnlyImage(leaves, i) && PlatformFits(leaves[i].platform, platform) && ImageFits(tools, layout.blobs, leaves[i])
  }

  /** What a passing scan reports: the image under the platform it names or was scanned for, and how much was scanned. */
  ghost predicate Reported(tools: Tools, layout: Layout, platform: string, r: Scanned) {
    var leaves := Leaves(tools, layout.blobs, layout.index, 8);
    exists i :: OnlyImage(leaves, i) && ImageReported(tools, layout.blobs, platform, leaves[i], r)
  }

  ghost predicate ImageReported(tools: Tools, blobs: map<string, Bytes>, platform: string, d: Descriptor, r: Scanned) {
    d.digest in blobs && tools.parseManifest(blobs[d.digest]).Ok? &&
    var m := tools.parseManifest(blobs[d.digest]).value;
    r.platform == platform && r.layerCount == |m.layers| &&
    (d.platform == Absent ==> r.manifest == d.(platform := Platform("linux", ArchitectureOf(platform)))) &&
    (d.platform != Absent ==> r.manifest == d) &&
    exists layers :: |layers| == |m.layers| && Unpacked(tools, blobs, m.layers, layers) && r.entryCount == Before(layers, |layers|)
  }

  lemma ReportMeans(tools: Tools, blobs: map<string, Bytes>, platform: string, d: Descriptor, m: Manifest, r: Scanned)
    requires d.digest in blobs && tools.parseManifest(blobs[d.digest]) == Ok(m) && WalkAllLayers(tools, blobs, m.layers).Ok?
    requires r == Scanned(platform, WithPlatform(d, platform), |m.layers|, |WalkAllLayers(tools, blobs, m.layers).value|)
    ensures ImageReported(tools, blobs, platform, d, r)
  {
    hide WalkAllLayers, ArchitectureOf;
    var layers := WalkMeans(tools, blobs, m.layers);
  }

  /**
   * A layout passes if and only if it loads, its index is non-empty and verified down to its leaves within
   * eight levels, every attestation among them is verified, and the single image names this platform or none,
   * and its manifest, its layers, their entries and its config all hold up.
   */
  lemma ScanExactly(tools: Tools, input: Input)
    ensures ScanPlatform(tools, input).Ok? <==>
              tools.loadLayout(input.tar).Ok? && LayoutFits(tools, tools.loadLayout(input.tar).value, input.platform)
    ensures ScanPlatform(tools, input).Ok? ==>
              Reported(tools, tools.loadLayout(input.tar).value, input.platform, ScanPlatform(tools, input).value)
  {
    hide Sound, Leaves, Resolve, ImageFits, ImageReported, ScanImage, LoadManifest, OfKind, Split, OnlyImage, WithPlatform, PlatformFits;
    if tools.loadLayout(input.tar).Ok? {
      var layout := tools.loadLayout(input.tar).value;
      ResolveMeans(tools, layout.blobs, layout.index, 0);
      if layout.index != [] && Resolve(tools, layout.blobs, layout.index, 0).Ok? {
        var leaves := Leaves(tools, layout.blobs, layout.index, 8);
        var found := Resolve(tools, layout.blobs, layout.index, 0).value;
        KindCount(leaves);
        SplitIs(leaves);
        AttestationsValid(tools, layout.blobs, leaves);
        if |found.images| == 1 {
          var i :| OnlyImage(leaves, i);
          OneOnly(leaves, i);
          ImageMeans(tools, layout.blobs, leaves[i]);
          PlatformMeans(leaves[i].platform, input.platform);
          if ScanPlatform(tools, input).Ok? {
            FitsHasBlob(tools, layout.blobs, leaves[i]);
            var m := LoadManifest(tools, layout.blobs, leaves[i]).value;
            ReportMeans(tools, layout.blobs, input.platform, leaves[i], m, ScanPlatform(tools, input).value);
          }
        }
      }
    }
  }

  lemma SplitIs(leaves: seq<Descriptor>)
    ensures Split(leaves).images == OfKind(leaves, false) && Split(leaves).attestations == OfKind(leaves, true)
  {
  }

  lemma FitsHasBlob(tools: Tools, blobs: map<string, Bytes>, d: Descriptor)
    requires ImageFits(tools, blobs, d)
    ensures d.digest in blobs && tools.parseManifest(blobs[d.digest]).Ok?
  {
  }

  lemma OneOnly(leaves: seq<Descriptor>, i: int)
    requires OnlyImage(leaves, i)
    ensures 0 <= i < |leaves| && forall j :: OnlyImage(leaves, j) ==> j == i
  {
  }

  lemma PlatformMeans(p: Platform, platform: string)
    ensures PlatformFits(p, platform) <==> p.Absent? || PlatformKey(p) == platform
  {
  }

  lemma AttestationsValid(tools: Tools, blobs: map<string, Bytes>, leaves: seq<Descriptor>)
    ensures AllValid(tools, blobs, OfKind(leaves, true)) <==> forall d :: d in leaves && d.attestation ==> Verified(tools, blobs, d)
  {
    hide OfKind;
    KindCount(leaves);
    var ds := OfKind(leaves, true);
    if AllValid(tools, blobs, ds) {
      forall d | d in leaves && d.attestation ensures Verified(tools, blobs, d) {
        assert d in ds;
        var i :| 0 <= i < |ds| && ds[i] == d;
        assert Validated(tools, ds[i], blobs).Ok?;
      }
    }
    if forall d :: d in leaves && d.attestation ==> Verified(tools, blobs, d) {
      forall i | 0 <= i < |ds| ensures Validated(tools, ds[i], blobs).Ok? { assert ds[i] in ds; assert Verified(tools, blobs, ds[i]); }
    }
  }

  // --------------------------------------------------------------------- the two of them

  /** A SHA-256 digest in lower-case hex, a media type, and a platform of two strings. */
  predicate WellShaped(d: Descriptor) {
    |d.digest| == 7 + 64 && d.digest[..7] == "sha256:" && (forall i :: 7 <= i < 71 ==> d.digest[i] in "0123456789abcdef") &&
    d.mediaType != "" && d.platform.Platform?
  }

  predicate For(d: Descriptor, platform: string) { d.platform.Platform? && d.platform.os + "/" + d.platform.architecture == platform }

  lemma ShapeMeans(d: Descriptor)
    ensures ShapeOk(d) <==> WellShaped(d)
  {
    if |d.digest| == 71 {
      var hex := d.digest[7..];
      forall i | 7 <= i < 71 ensures d.digest[i] in "0123456789abcdef" <==> '0' <= hex[i - 7] <= '9' || 'a' <= hex[i - 7] <= 'f' {
        HexChars(d.digest[i]);
      }
    }
  }

  lemma HexChars(c: char)
    ensures c in "0123456789abcdef" <==> '0' <= c <= '9' || 'a' <= c <= 'f'
  {
    var hex := "0123456789abcdef";
    assert hex[0] == '0' && hex[1] == '1' && hex[2] == '2' && hex[3] == '3' && hex[4] == '4' && hex[5] == '5' && hex[6] == '6' && hex[7] == '7';
    assert hex[8] == '8' && hex[9] == '9' && hex[10] == 'a' && hex[11] == 'b' && hex[12] == 'c' && hex[13] == 'd' && hex[14] == 'e' && hex[15] == 'f';
  }

  /** Every candidate is for a required platform, no two for the same, each with a digest the gate scanned. */
  ghost predicate Seated(cs: seq<Descriptor>, allowed: set<string>) {
    (forall i :: 0 <= i < |cs| ==> cs[i].platform.Platform? && PlatformKey(cs[i].platform) in REQUIRED && cs[i].digest in allowed) &&
    forall i, j :: 0 <= i < j < |cs| ==> PlatformKey(cs[i].platform) != PlatformKey(cs[j].platform)
  }

  /** The seats hold exactly these candidates, each under its platform. */
  ghost predicate SeatsHold(cs: seq<Descriptor>, seen: map<string, Descriptor>)
    requires forall i :: 0 <= i < |cs| ==> cs[i].platform.Platform?
  {
    (forall k :: k in seen ==> exists i :: 0 <= i < |cs| && PlatformKey(cs[i].platform) == k) &&
    forall i :: 0 <= i < |cs| ==> PlatformKey(cs[i].platform) in seen && seen[PlatformKey(cs[i].platform)] == cs[i]
  }

  lemma {:induction false} SeatMeans(cs: seq<Descriptor>, allowed: set<string>)
    requires forall i :: 0 <= i < |cs| ==> cs[i].platform.Platform?
    ensures Seat(cs, allowed).Ok? <==> Seated(cs, allowed)
    ensures Seat(cs, allowed).Ok? ==> SeatsHold(cs, Seat(cs, allowed).value)
  {
    hide PlatformKey, SeatsHold, Seated;
    if cs == [] {
      NoSeats();
    } else {
      var n := |cs| - 1;
      SeatMeans(cs[..n], allowed);
      if Seat(cs[..n], allowed).Ok? { NextSeat(cs, allowed, Seat(cs[..n], allowed).value); } else { SeatedBefore(cs, allowed); }
    }
  }

  lemma NoSeats()
    ensures SeatsHold([], map[]) && forall allowed :: Seated([], allowed)
  {
  }

  lemma SeatedBefore(cs: seq<Descriptor>, allowed: set<string>)
    requires cs != []
    ensures Seated(cs, allowed) ==> Seated(cs[..|cs| - 1], allowed)
  {
    hide PlatformKey;
    assert forall i :: 0 <= i < |cs| - 1 ==> cs[..|cs| - 1][i] == cs[i];
  }

  lemma NextSeat(cs: seq<Descriptor>, allowed: set<string>, seen: map<string, Descriptor>)
    requires cs != [] && forall i :: 0 <= i < |cs| ==> cs[i].platform.Platform?
    requires Seated(cs[..|cs| - 1], allowed) && SeatsHold(cs[..|cs| - 1], seen)
    ensures var n := |cs| - 1; var key := PlatformKey(cs[n].platform);
            (Seated(cs, allowed) <==> key in REQUIRED && key !in seen && cs[n].digest in allowed) &&
            (key !in seen ==> SeatsHold(cs, seen[key := cs[n]]))
  {
    hide PlatformKey;
    var n := |cs| - 1;
    assert forall i :: 0 <= i < n ==> cs[..n][i] == cs[i];
    var key := PlatformKey(cs[n].platform);
    if key !in seen {
      var next := seen[key := cs[n]];
      forall i | 0 <= i < |cs| ensures PlatformKey(cs[i].platform) in next && next[PlatformKey(cs[i].platform)] == cs[i] {
        if i < n { assert PlatformKey(cs[..n][i].platform) in seen; }
      }
      forall k | k in next ensures exists i :: 0 <= i < |cs| && PlatformKey(cs[i].platform) == k {
        if k == key {
          assert PlatformKey(cs[n].platform) == k;
        } else {
          var i :| 0 <= i < n && PlatformKey(cs[..n][i].platform) == k;
          assert PlatformKey(cs[i].platform) == k;
        }
      }
    } else {
      var i :| 0 <= i < n && PlatformKey(cs[..n][i].platform) == key;
      assert PlatformKey(cs[i].platform) == key;
    }
  }

  lemma ThreeKeys(a: string, b: string, c: string)
    requires a in REQUIRED && b in REQUIRED && c in REQUIRED
    ensures a == b || a == c || b == c
  {
    assert forall p :: p in REQUIRED ==> p == REQUIRED[0] || p == REQUIRED[1];
  }

  /** Two well-shaped candidates the gate scanned, one per platform. */
  predicate TwoSeats(cs: seq<Descriptor>, allowed: set<string>) {
    |cs| == 2 && WellShaped(cs[0]) && WellShaped(cs[1]) && cs[0].digest in allowed && cs[1].digest in allowed &&
    ((For(cs[0], "linux/amd64") && For(cs[1], "linux/arm64")) || (For(cs[0], "linux/arm64") && For(cs[1], "linux/amd64")))
  }

  /** An index is assembled exactly from two such candidates, and lists them in fixed order. */
  lemma AssembleExactly(cs: seq<Descriptor>, allowed: set<string>)
    ensures Assemble(cs, allowed).Ok? <==> TwoSeats(cs, allowed)
    ensures Assemble(cs, allowed).Ok? ==>
              Assemble(cs, allowed).value.manifests == if For(cs[0], "linux/amd64") then [cs[0], cs[1]] else [cs[1], cs[0]]
  {
    hide Seat, ShapeOk, WellShaped, Seated, SeatsHold, For;
    RequiredAre();
    forall d ensures ShapeOk(d) <==> WellShaped(d) { ShapeMeans(d); }
    forall d | WellShaped(d) ensures d.platform.Platform? { ShapedHasPlatform(d); }
    if forall i :: 0 <= i < |cs| ==> ShapeOk(cs[i]) {
      SeatMeans(cs, allowed);
      BothSeated(cs, allowed);
      if Seat(cs, allowed).Ok? { SeatsListed(cs, allowed, Seat(cs, allowed).value); }
    }
  }

  lemma KeyIs(d: Descriptor)
    requires d.platform.Platform?
    ensures forall platform :: For(d, platform) <==> PlatformKey(d.platform) == platform
  {
  }

  lemma BothSeated(cs: seq<Descriptor>, allowed: set<string>)
    requires forall i :: 0 <= i < |cs| ==> cs[i].platform.Platform? && WellShaped(cs[i])
    ensures TwoSeats(cs, allowed) ==> Seated(cs, allowed)
  {
    hide WellShaped, PlatformKey, For;
    RequiredAre();
    forall i | 0 <= i < |cs| ensures forall platform :: For(cs[i], platform) <==> PlatformKey(cs[i].platform) == platform { KeyIs(cs[i]); }
  }

  lemma SeatsListed(cs: seq<Descriptor>, allowed: set<string>, seen: map<string, Descriptor>)
    requires forall i :: 0 <= i < |cs| ==> cs[i].platform.Platform? && WellShaped(cs[i])
    requires Seated(cs, allowed) && SeatsHold(cs, seen)
    ensures "linux/amd64" in seen && "linux/arm64" in seen <==> TwoSeats(cs, allowed)
    ensures TwoSeats(cs, allowed) ==> [seen["linux/amd64"], seen["linux/arm64"]] == if For(cs[0], "linux/amd64") then [cs[0], cs[1]] else [cs[1], cs[0]]
  {
    hide WellShaped, PlatformKey, For;
    RequiredAre();
    forall i | 0 <= i < |cs| ensures forall platform :: For(cs[i], platform) <==> PlatformKey(cs[i].platform) == platform { KeyIs(cs[i]); }
    if |cs| > 2 { ThreeKeys(PlatformKey(cs[0].platform), PlatformKey(cs[1].platform), PlatformKey(cs[2].platform)); }
    if |cs| == 2 { assert PlatformKey(cs[0].platform) in REQUIRED && PlatformKey(cs[1].platform) in REQUIRED; }
  }

  lemma ShapedHasPlatform(d: Descriptor)
    requires WellShaped(d)
    ensures d.platform.Platform?
  {
  }

  lemma RequiredAre()
    ensures REQUIRED == ["linux/amd64", "linux/arm64"] && "linux/amd64" != "linux/arm64"
  {
    RequiredDiffer();
    assert LINUX + "/" + "amd64" == "linux/amd64" && LINUX + "/" + "arm64" == "linux/arm64";
  }

  /** One input of the gate holds up: its layout fits, and the image found there can be listed. */
  ghost predicate InputFits(tools: Tools, input: Input) {
    tools.loadLayout(input.tar).Ok? && LayoutFits(tools, tools.loadLayout(input.tar).value, input.platform) &&
    var leaves := Leaves(tools, tools.loadLayout(input.tar).value.blobs, tools.loadLayout(input.tar).value.index, 8);
    exists i :: OnlyImage(leaves, i) && Listable(leaves[i])
  }

  /** Well shaped, but the platform may be missing. */
  predicate Listable(d: Descriptor) { !d.platform.Odd? && WellShaped(d.(platform := Platform("", ""))) }

  lemma ListableMeans(d: Descriptor, platform: string)
    ensures Listable(d) <==> ShapeOk(WithPlatform(d, platform))
  {
    hide ArchitectureOf;
    ShapeMeans(WithPlatform(d, platform));
  }

  lemma PassesMeans(tools: Tools, input: Input)
    ensures Passes(tools, input) <==> InputFits(tools, input)
  {
    hide ScanPlatform, LayoutFits, Leaves, ShapeOk, OnlyImage, Listable, ImageReported;
    ScanExactly(tools, input);
    if ScanPlatform(tools, input).Ok? {
      var layout := tools.loadLayout(input.tar).value;
      var leaves := Leaves(tools, layout.blobs, layout.index, 8);
      var i := ReportedImage(tools, layout, input.platform, ScanPlatform(tools, input).value);
      OneOnly(leaves, i);
      ReportedManifest(tools, layout.blobs, input.platform, leaves[i], ScanPlatform(tools, input).value);
      ListableMeans(leaves[i], input.platform);
    }
  }

  lemma ReportedImage(tools: Tools, layout: Layout, platform: string, r: Scanned) returns (i: int)
    requires Reported(tools, layout, platform, r)
    ensures var leaves := Leaves(tools, layout.blobs, layout.index, 8);
            0 <= i < |leaves| && OnlyImage(leaves, i) && ImageReported(tools, layout.blobs, platform, leaves[i], r)
  {
    hide Leaves, ImageReported;
    var leaves := Leaves(tools, layout.blobs, layout.index, 8);
    i :| OnlyImage(leaves, i) && ImageReported(tools, layout.blobs, platform, leaves[i], r);
  }

  lemma ReportedManifest(tools: Tools, blobs: map<string, Bytes>, platform: string, d: Descriptor, r: Scanned)
    requires ImageReported(tools, blobs, platform, d, r)
    ensures r.manifest == WithPlatform(d, platform)
  {
    hide ArchitectureOf;
  }

  /** The gate passes exactly when given a layout that holds up for linux/amd64 and one for linux/arm64, in either order. */
  lemma GateOnLayouts(tools: Tools, inputs: seq<Input>)
    ensures RunGate(tools, inputs).Ok? <==>
              |inputs| == 2 && InputFits(tools, inputs[0]) && InputFits(tools, inputs[1]) &&
              ((inputs[0].platform == "linux/amd64" && inputs[1].platform == "linux/arm64") ||
               (inputs[0].platform == "linux/arm64" && inputs[1].platform == "linux/amd64"))
  {
    hide RunGate, Passes, InputFits;
    RequiredAre();
    GateExactly(tools, inputs);
    if |inputs| == 2 {
      PassesMeans(tools, inputs[0]);
      PassesMeans(tools, inputs[1]);
    }
  }
}
