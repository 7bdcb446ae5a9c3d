/** Index flattening, the scan of one platform's layout, and the assembly of the two-platform index. */
module OciGate {
  import opened A2aDoc
  import opened OciLayers

  // ---------------------------------------------------------------- index flattening

  predicate IsIndex(d: Descriptor) {
    d.mediaType == "application/vnd.oci.image.index.v1+json" || d.mediaType == "application/vnd.docker.distribution.manifest.list.v2+json"
  }

  const MAX_DEPTH := 8

  datatype Resolved = Resolved(images: seq<Descriptor>, attestations: seq<Descriptor>)

  /** The blob of a nested index, verified and parsed. */
  function Nested(tools: Tools, blobs: map<string, Bytes>, d: Descriptor): Result<seq<Descriptor>> {
    match Validated(tools, d, blobs)
    case Err(e) => Err(e)
    case Ok(bytes) => tools.parseIndex(bytes)
  }

  function ResolveOne(tools: Tools, blobs: map<string, Bytes>, d: Descriptor, depth: nat): Result<Resolved>
    requires depth <= MAX_DEPTH
    decreases MAX_DEPTH + 1 - depth, 0, 0
  {
    if IsIndex(d) then
      match Nested(tools, blobs, d)
      case Err(e) => Err(e)
      case Ok(inner) => Resolve(tools, blobs, inner, depth + 1)
    else if d.attestation then Ok(Resolved([], [d]))
    else Ok(Resolved([d], []))
  }

  function ResolveAll(tools: Tools, blobs: map<string, Bytes>, ds: seq<Descriptor>, depth: nat): Result<Resolved>
    requires depth <= MAX_DEPTH
    decreases MAX_DEPTH + 1 - depth, 1, |ds|
  {
    if ds == [] then Ok(Resolved([], []))
    else
      var n := |ds| - 1;
      match ResolveAll(tools, blobs, ds[..n], depth)
      case Err(e) => Err(e)
      case Ok(before) =>
        match ResolveOne(tools, blobs, ds[n], depth)
        case Err(e) => Err(e)
        case Ok(one) => Ok(Resolved(before.images + one.images, before.attestations + one.attestations))
  }

  /** resolveIndexDescriptors. */
  function Resolve(tools: Tools, blobs: map<string, Bytes>, ds: seq<Descriptor>, depth: nat): Result<Resolved>
    requires depth <= MAX_DEPTH + 1
    decreases MAX_DEPTH + 1 - depth, 2, 0
  {
    if depth > MAX_DEPTH then Err(MalformedLayout) else ResolveAll(tools, blobs, ds, depth)
  }

  /** The loop of resolveIndexDescriptors, recursing into nested indexes. */
  method ResolveIndexDescriptors(tools: Tools, blobs: map<string, Bytes>, ds: seq<Descriptor>, depth: nat) returns (r: Result<Resolved>)
    requires depth <= MAX_DEPTH + 1
    ensures r == Resolve(tools, blobs, ds, depth)
    decreases MAX_DEPTH + 1 - depth
  {
    if depth > MAX_DEPTH { return Err(MalformedLayout); }
    var images, attestations := [], [];
    var i := 0;
    while i < |ds|
      invariant 0 <= i <= |ds| && ResolveAll(tools, blobs, ds[..i], depth) == Ok(Resolved(images, attestations))
    {
      assert ds[..i + 1][..i] == ds[..i];
      if IsIndex(ds[i]) {
        var inner := Nested(tools, blobs, ds[i]);
        if inner.Err? {
          ResolveStops(tools, blobs, ds, depth, i);
          return Err(inner.error);
        }
        var nested := ResolveIndexDescriptors(tools, blobs, inner.value, depth + 1);
        if nested.Err? {
          ResolveStops(tools, blobs, ds, depth, i);
          return nested;
        }
        images, attestations := images + nested.value.images, attestations + nested.value.attestations;
      } else if ds[i].attestation {
        attestations := attestations + [ds[i]];
        assert images + [] == images;
      } else {
        images := images + [ds[i]];
        assert attestations + [] == attestations;
      }
      i := i + 1;
    }
    assert ds[..i] == ds;
    r := Ok(Resolved(images, attestations));
  }

  lemma {:induction false} ResolveStops(tools: Tools, blobs: map<string, Bytes>, ds: seq<Descriptor>, depth: nat, i: nat)
    requires depth <= MAX_DEPTH && i < |ds| && ResolveAll(tools, blobs, ds[..i], depth).Ok? && ResolveOne(tools, blobs, ds[i], depth).Err?
    ensures ResolveAll(tools, blobs, ds, depth) == Err(ResolveOne(tools, blobs, ds[i], depth).error)
    decreases |ds|
  {
    hide ResolveOne;
    var n := |ds| - 1;
    if i < n {
      assert ds[..n][..i] == ds[..i];
      ResolveStops(tools, blobs, ds[..n], depth, i);
    }
  }

  // ----------------------------------------------------------------- what it resolves to

  /** The leaves under one descriptor; `levels` bounds how far down to look. */
  function LeavesOf(tools: Tools, blobs: map<string, Bytes>, d: Descriptor, levels: nat): seq<Descriptor>
    decreases levels, 0, 0
  {
    if !IsIndex(d) then [d]
    else if levels == 0 || Nested(tools, blobs, d).Err? then []
    else Leaves(tools, blobs, Nested(tools, blobs, d).value, levels - 1)
  }

  /** The leaves of the descriptor forest, left to right. */
  function Leaves(tools: Tools, blobs: map<string, Bytes>, ds: seq<Descriptor>, levels: nat): seq<Descriptor>
    decreases levels, 1, |ds|
  {
    if ds == [] then [] else Leaves(tools, blobs, ds[..|ds| - 1], levels) + LeavesOf(tools, blobs, ds[|ds| - 1], levels)
  }

  /** An index verified against its blob and parsing, and everything under it likewise, within `levels` levels. */
  predicate SoundOne(tools: Tools, blobs: map<string, Bytes>, d: Descriptor, levels: nat)
    decreases levels, 0
  {
    IsIndex(d) ==> levels > 0 && Nested(tools, blobs, d).Ok? && Sound(tools, blobs, Nested(tools, blobs, d).value, levels - 1)
  }

  predicate Sound(tools: Tools, blobs: map<string, Bytes>, ds: seq<Descriptor>, levels: nat)
    decreases levels, 1
  {
    forall i :: 0 <= i < |ds| ==> SoundOne(tools, blobs, ds[i], levels)
  }

  function OfKind(ds: seq<Descriptor>, attestation: bool): seq<Descriptor> {
    if ds == [] then []
    else
      var n := |ds| - 1;
      OfKind(ds[..n], attestation) + (if ds[n].attestation == attestation then [ds[n]] else [])
  }

  lemma {:induction false} OfKindConcat(a: seq<Descriptor>, b: seq<Descriptor>, attestation: bool)
    ensures OfKind(a + b, attestation) == OfKind(a, attestation) + OfKind(b, attestation)
  {
    if b == [] {
      assert a + b == a;
    } else {
      var n := |b| - 1;
      assert (a + b)[..|a + b| - 1] == a + b[..n];
      OfKindConcat(a, b[..n], attestation);
    }
  }

  function Split(ds: seq<Descriptor>): Resolved { Resolved(OfKind(ds, false), OfKind(ds, true)) }

  lemma SplitConcat(a: seq<Descriptor>, b: seq<Descriptor>)
    ensures Split(a + b) == Resolved(Split(a).images + Split(b).images, Split(a).attestations + Split(b).attestations)
  {
    OfKindConcat(a, b, false);
    OfKindConcat(a, b, true);
  }

  lemma {:induction false} ResolveOneMeans(tools: Tools, blobs: map<string, Bytes>, d: Descriptor, depth: nat)
    requires depth <= MAX_DEPTH
    ensures ResolveOne(tools, blobs, d, depth).Ok? <==> SoundOne(tools, blobs, d, MAX_DEPTH - depth)
    ensures ResolveOne(tools, blobs, d, depth).Ok? ==>
              ResolveOne(tools, blobs, d, depth).value == Split(LeavesOf(tools, blobs, d, MAX_DEPTH - depth))
    decreases MAX_DEPTH - depth, 0, 0
  {
    hide Nested, Sound;
    if IsIndex(d) {
      if Nested(tools, blobs, d).Ok? && depth < MAX_DEPTH { ResolveMeans(tools, blobs, Nested(tools, blobs, d).value, depth + 1); }
    } else {
      SplitOne(d);
    }
  }

  lemma SplitOne(d: Descriptor)
    ensures Split([d]) == if d.attestation then Resolved([], [d]) else Resolved([d], [])
  {
    assert [d][..0] == [];
    assert OfKind([], false) == [] && OfKind([], true) == [];
  }

  /** On success the result is the leaves in order, split by kind; it succeeds exactly on sound forests. */
  lemma {:induction false} ResolveMeans(tools: Tools, blobs: map<string, Bytes>, ds: seq<Descriptor>, depth: nat)
    requires depth <= MAX_DEPTH
    ensures Resolve(tools, blobs, ds, depth).Ok? <==> Sound(tools, blobs, ds, MAX_DEPTH - depth)
    ensures Resolve(tools, blobs, ds, depth).Ok? ==>
              Resolve(tools, blobs, ds, depth).value == Split(Leaves(tools, blobs, ds, MAX_DEPTH - depth))
    decreases MAX_DEPTH - depth, 1, |ds|
  {
    hide ResolveOne, LeavesOf, SoundOne, Split;
    if ds == [] {
      assert Split([]) == Resolved([], []) by { EmptySplit(); }
    } else {
      var n := |ds| - 1;
      var levels := MAX_DEPTH - depth;
      ResolveMeans(tools, blobs, ds[..n], depth);
      ResolveOneMeans(tools, blobs, ds[n], depth);
      assert Sound(tools, blobs, ds, levels) == (Sound(tools, blobs, ds[..n], levels) && SoundOne(tools, blobs, ds[n], levels)) by {
        assert forall i :: 0 <= i < n ==> ds[..n][i] == ds[i];
      }
      SplitConcat(Leaves(tools, blobs, ds[..n], levels), LeavesOf(tools, blobs, ds[n], levels));
    }
  }

  lemma EmptySplit()
    ensures Split([]) == Resolved([], [])
  {
  }

  // ------------------------------------------------------------------------- cycles

  /** The parent lists the child. */
  predicate Lists(tools: Tools, blobs: map<string, Bytes>, parent: Descriptor, child: Descriptor) {
    IsIndex(parent) && Nested(tools, blobs, parent).Ok? && child in Nested(tools, blobs, parent).value
  }

  /** A path of indexes, each listed in the one before it. */
  predicate Chain(tools: Tools, blobs: map<string, Bytes>, path: seq<Descriptor>) {
    (forall i :: 0 <= i < |path| ==> IsIndex(path[i])) && (forall i :: 1 <= i < |path| ==> Lists(tools, blobs, path[i - 1], path[i]))
  }

  lemma ChildResolves(tools: Tools, blobs: map<string, Bytes>, ds: seq<Descriptor>, d: Descriptor, depth: nat)
    requires depth <= MAX_DEPTH && d in ds && IsIndex(d) && Resolve(tools, blobs, ds, depth).Ok?
    ensures depth < MAX_DEPTH && Nested(tools, blobs, d).Ok? && Resolve(tools, blobs, Nested(tools, blobs, d).value, depth + 1).Ok?
  {
    hide Nested, Resolve;
    ResolveMeans(tools, blobs, ds, depth);
    var i :| 0 <= i < |ds| && ds[i] == d;
    assert SoundOne(tools, blobs, ds[i], MAX_DEPTH - depth);
    ResolveMeans(tools, blobs, Nested(tools, blobs, d).value, depth + 1);
  }

  /** No accepted layout nests indexes deeper than the ceiling. */
  lemma {:induction false} ChainsEnd(tools: Tools, blobs: map<string, Bytes>, ds: seq<Descriptor>, depth: nat, path: seq<Descriptor>)
    requires depth <= MAX_DEPTH && path != [] && path[0] in ds && Chain(tools, blobs, path) && Resolve(tools, blobs, ds, depth).Ok?
    ensures |path| <= MAX_DEPTH - depth
    decreases |path|
  {
    hide Nested, Resolve;
    ChildResolves(tools, blobs, ds, path[0], depth);
    if |path| > 1 {
      assert Lists(tools, blobs, path[1 - 1], path[1]);
      assert Chain(tools, blobs, path[1..]) by {
        forall i | 1 <= i < |path[1..]| ensures Lists(tools, blobs, path[1..][i - 1], path[1..][i]) {
          assert Lists(tools, blobs, path[i + 1 - 1], path[i + 1]);
        }
      }
      ChainsEnd(tools, blobs, Nested(tools, blobs, path[0]).value, depth + 1, path[1..]);
    }
  }

  /** A cycle walked round and round. */
  function Rounds(cycle: seq<Descriptor>, n: nat): seq<Descriptor> {
    if n == 0 then [] else cycle + Rounds(cycle, n - 1)
  }

  lemma {:induction false} RoundsAreChains(tools: Tools, blobs: map<string, Bytes>, cycle: seq<Descriptor>, n: nat)
    requires cycle != [] && Chain(tools, blobs, cycle) && Lists(tools, blobs, cycle[|cycle| - 1], cycle[0])
    ensures Chain(tools, blobs, Rounds(cycle, n)) && |Rounds(cycle, n)| >= n && (n > 0 ==> Rounds(cycle, n)[0] == cycle[0])
  {
    hide Lists;
    if n > 0 {
      RoundsAreChains(tools, blobs, cycle, n - 1);
      var rest, path := Rounds(cycle, n - 1), Rounds(cycle, n);
      forall i | 1 <= i < |path| ensures Lists(tools, blobs, path[i - 1], path[i]) {
        if i < |cycle| {
          assert Lists(tools, blobs, cycle[i - 1], cycle[i]);
        } else if i > |cycle| {
          assert Lists(tools, blobs, rest[i - |cycle| - 1], rest[i - |cycle|]);
        }
      }
    }
  }

  lemma ChainsJoin(tools: Tools, blobs: map<string, Bytes>, path: seq<Descriptor>, cycle: seq<Descriptor>, rest: seq<Descriptor>)
    requires cycle != [] && rest != [] && rest[0] == cycle[0] && Chain(tools, blobs, path + cycle) && Chain(tools, blobs, rest)
    ensures Chain(tools, blobs, path + rest) && (path + rest)[0] == (path + cycle)[0]
  {
    hide Lists;
    forall i | 0 <= i < |path + rest| ensures IsIndex((path + rest)[i]) {
      assert i < |path| ==> (path + rest)[i] == (path + cycle)[i];
    }
    forall i | 1 <= i < |path + rest| ensures Lists(tools, blobs, (path + rest)[i - 1], (path + rest)[i]) {
      if i <= |path| {
        assert Lists(tools, blobs, (path + cycle)[i - 1], (path + cycle)[i]);
      } else {
        assert Lists(tools, blobs, rest[i - |path| - 1], rest[i - |path|]);
      }
    }
  }

  lemma ChainTail(tools: Tools, blobs: map<string, Bytes>, path: seq<Descriptor>, cycle: seq<Descriptor>)
    requires Chain(tools, blobs, path + cycle)
    ensures Chain(tools, blobs, cycle)
  {
    hide Lists;
    forall i | 0 <= i < |cycle| ensures IsIndex(cycle[i]) { assert cycle[i] == (path + cycle)[|path| + i]; }
    forall i | 1 <= i < |cycle| ensures Lists(tools, blobs, cycle[i - 1], cycle[i]) {
      assert Lists(tools, blobs, (path + cycle)[|path| + i - 1], (path + cycle)[|path| + i]);
    }
  }

  /** Any layout with a cycle of indexes in reach, at the end of however long a path, is refused. */
  lemma CyclesRefused(tools: Tools, blobs: map<string, Bytes>, ds: seq<Descriptor>, path: seq<Descriptor>, cycle: seq<Descriptor>)
    requires cycle != [] && (path + cycle)[0] in ds && Chain(tools, blobs, path + cycle) && Lists(tools, blobs, cycle[|cycle| - 1], cycle[0])
    ensures Resolve(tools, blobs, ds, 0).Err?
  {
    hide Resolve, Chain, Lists, Rounds;
    if Resolve(tools, blobs, ds, 0).Ok? {
      var rounds := Rounds(cycle, MAX_DEPTH + 1);
      ChainTail(tools, blobs, path, cycle);
      RoundsAreChains(tools, blobs, cycle, MAX_DEPTH + 1);
      ChainsJoin(tools, blobs, path, cycle, rounds);
      ChainsEnd(tools, blobs, ds, 0, path + rounds);
    }
  }

  // ------------------------------------------------------------------- one platform

  const LINUX := "linux"
  const REQUIRED: seq<string> := [LINUX + "/" + "amd64", LINUX + "/" + "arm64"]

  function PlatformKey(p: Platform): string
    requires !p.Absent?
  {
    if p.Platform? then p.os + "/" + p.architecture else p.key
  }

  /** One input of the gate; its platform is one of the two required ones unless the caller lies. */
  datatype Input = Input(platform: string, tar: Bytes)

  datatype Scanned = Scanned(platform: string, manifest: Descriptor, layerCount: nat, entryCount: nat)

  /** input.platform.split('/')[1]. */
  function ArchitectureOf(platform: string): string { UpToSlash(AfterSlash(platform)) }

  function AfterSlash(s: string): string { if s == "" then "" else if s[0] == '/' then s[1..] else AfterSlash(s[1..]) }

  function UpToSlash(s: string): string { if s == "" || s[0] == '/' then "" else [s[0]] + UpToSlash(s[1..]) }

  function WithPlatform(d: Descriptor, platform: string): Descriptor {
    if d.platform.Absent? then d.(platform := Platform(LINUX, ArchitectureOf(platform))) else d
  }

  predicate AllValid(tools: Tools, blobs: map<string, Bytes>, ds: seq<Descriptor>) {
    forall i :: 0 <= i < |ds| ==> Validated(tools, ds[i], blobs).Ok?
  }

  function FirstInvalid(tools: Tools, blobs: map<string, Bytes>, ds: seq<Descriptor>): (r: Option<GateError>)
    ensures r.None? <==> AllValid(tools, blobs, ds)
  {
    if ds == [] then None
    else if Validated(tools, ds[0], blobs).Err? then Some(Validated(tools, ds[0], blobs).error)
    else
      assert AllValid(tools, blobs, ds) <==> AllValid(tools, blobs, ds[1..]) by {
        assert forall i :: 1 <= i < |ds| ==> ds[i] == ds[1..][i - 1];
      }
      FirstInvalid(tools, blobs, ds[1..])
  }

  /** loadManifest: the blob verified, then parsed and its parts shape-checked. */
  function LoadManifest(tools: Tools, blobs: map<string, Bytes>, d: Descriptor): Result<Manifest> {
    match Validated(tools, d, blobs)
    case Err(e) => Err(e)
    case Ok(bytes) => tools.parseManifest(bytes)
  }

  /** From the manifest on: every layer walked and scanned, then the config. */
  function ScanImage(tools: Tools, blobs: map<string, Bytes>, m: Manifest): Result<nat> {
    match WalkAllLayers(tools, blobs, m.layers)
    case Err(e) => Err(e)
    case Ok(entries) =>
      if !tools.cleanEntries(entries) then Err(Finding)
      else
        match Validated(tools, m.config, blobs)
        case Err(e) => Err(e)
        case Ok(bytes) =>
          if !tools.isJson(bytes) then Err(MalformedLayout)
          else if !tools.cleanConfig(bytes) then Err(Finding)
          else Ok(|entries|)
  }

  /** scanPlatformLayout. */
  function ScanPlatform(tools: Tools, input: Input): Result<Scanned> {
    match tools.loadLayout(input.tar)
    case Err(e) => Err(e)
    case Ok(layout) =>
      if layout.index == [] then Err(MalformedLayout)
      else
        match Resolve(tools, layout.blobs, layout.index, 0)
        case Err(e) => Err(e)
        case Ok(found) =>
          if |found.images| != 1 then Err(MalformedLayout)
          else
            var d := found.images[0];
            if !d.platform.Absent? && PlatformKey(d.platform) != input.platform then Err(MalformedLayout)
            else if FirstInvalid(tools, layout.blobs, found.attestations).Some? then Err(FirstInvalid(tools, layout.blobs, found.attestations).value)
            else
              match LoadManifest(tools, layout.blobs, d)
              case Err(e) => Err(e)
              case Ok(m) =>
                match ScanImage(tools, layout.blobs, m)
                case Err(e) => Err(e)
                case Ok(count) => Ok(Scanned(input.platform, WithPlatform(d, input.platform), |m.layers|, count))
  }

  // ------------------------------------------------------------------- index assembly

  predicate IsHex(s: string) { forall i :: 0 <= i < |s| ==> '0' <= s[i] <= '9' || 'a' <= s[i] <= 'f' }

  predicate DigestOk(s: string) { |s| == 71 && s[..7] == "sha256:" && IsHex(s[7..]) }

  predicate ShapeOk(d: Descriptor) { DigestOk(d.digest) && d.mediaType != "" && d.platform.Platform? }

  datatype Index = Index(manifests: seq<Descriptor>)

  /** The second loop of assembleLocalOciIndex, candidate by candidate. */
  function Seat(cs: seq<Descriptor>, allowed: set<string>): Result<map<string, Descriptor>>
    requires forall i :: 0 <= i < |cs| ==> cs[i].platform.Platform?
  {
    if cs == [] then Ok(map[])
    else
      var n := |cs| - 1;
      match Seat(cs[..n], allowed)
      case Err(e) => Err(e)
      case Ok(seen) =>
        var key := PlatformKey(cs[n].platform);
        if key !in REQUIRED then Err(ExtraPlatform)
        else if key in seen then Err(DuplicatePlatform)
        else if cs[n].digest !in allowed then Err(UnknownChildDigest)
        else Ok(seen[key := cs[n]])
  }

  function Assemble(cs: seq<Descriptor>, allowed: set<string>): Result<Index> {
    if exists i :: 0 <= i < |cs| && !ShapeOk(cs[i]) then Err(MalformedDescriptor)
    else
      match Seat(cs, allowed)
      case Err(e) => Err(e)
      case Ok(seen) =>
        if REQUIRED[0] !in seen || REQUIRED[1] !in seen then Err(MissingPlatform)
        else Ok(Index([seen[REQUIRED[0]], seen[REQUIRED[1]]]))
  }

  /** assembleLocalOciIndex. */
  method AssembleIndex(cs: seq<Descriptor>, allowed: set<string>) returns (r: Result<Index>)
    ensures r == Assemble(cs, allowed)
  {
    var i := 0;
    while i < |cs|
      invariant 0 <= i <= |cs| && forall k :: 0 <= k < i ==> ShapeOk(cs[k])
    {
      if !ShapeOk(cs[i]) { return Err(MalformedDescriptor); }
      i := i + 1;
    }
    var seen: map<string, Descriptor> := map[];
    i := 0;
    while i < |cs|
      invariant 0 <= i <= |cs| && Seat(cs[..i], allowed) == Ok(seen)
    {
      assert cs[..i + 1][..i] == cs[..i];
      var key := PlatformKey(cs[i].platform);
      if key !in REQUIRED || key in seen || cs[i].digest !in allowed { SeatStops(cs, allowed, i + 1); }
      if key !in REQUIRED { return Err(ExtraPlatform); }
      if key in seen { return Err(DuplicatePlatform); }
      if cs[i].digest !in allowed { return Err(UnknownChildDigest); }
      seen := seen[key := cs[i]];
      i := i + 1;
    }
    assert cs[..i] == cs;
    if REQUIRED[0] !in seen || REQUIRED[1] !in seen { return Err(MissingPlatform); }
    r := Ok(Index([seen[REQUIRED[0]], seen[REQUIRED[1]]]));
  }

  lemma {:induction false} SeatStops(cs: seq<Descriptor>, allowed: set<string>, i: nat)
    requires i <= |cs| && (forall k :: 0 <= k < |cs| ==> cs[k].platform.Platform?) && Seat(cs[..i], allowed).Err?
    ensures Seat(cs, allowed) == Seat(cs[..i], allowed)
  {
    if i < |cs| {
      var n := |cs| - 1;
      assert cs[..n][..i] == cs[..i];
      SeatStops(cs[..n], allowed, i);
    } else {
      assert cs[..i] == cs;
    }
  }

  // ------------------------------------------------------------------------- the gate

  function ScanAll(tools: Tools, inputs: seq<Input>): (r: Result<seq<Scanned>>)
    ensures r.Ok? ==> |r.value| == |inputs|
  {
    if inputs == [] then Ok([])
    else
      var n := |inputs| - 1;
      match ScanAll(tools, inputs[..n])
      case Err(e) => Err(e)
      case Ok(before) =>
        match ScanPlatform(tools, inputs[n])
        case Err(e) => Err(e)
        case Ok(one) => Ok(before + [one])
  }

  function Manifests(rs: seq<Scanned>): (r: seq<Descriptor>)
    ensures |r| == |rs|
  {
    seq(|rs|, i requires 0 <= i < |rs| => rs[i].manifest)
  }

  function Digests(rs: seq<Scanned>): set<string> { set r | r in rs :: r.manifest.digest }

  /** The checks between scanning and assembly, on the set of platforms the caller supplied. */
  function PlatformError(rs: seq<Scanned>): Option<GateError> {
    if exists i, j :: 0 <= i < j < |rs| && rs[i].platform == rs[j].platform then Some(DuplicatePlatform)
    else if exists i :: 0 <= i < |rs| && rs[i].platform !in REQUIRED then Some(ExtraPlatform)
    else if exists p :: p in REQUIRED && forall i :: 0 <= i < |rs| ==> rs[i].platform != p then Some(MissingPlatform)
    else None
  }

  /** runContentGate. */
  function RunGate(tools: Tools, inputs: seq<Input>): Result<Index> {
    match ScanAll(tools, inputs)
    case Err(e) => Err(e)
    case Ok(rs) => if PlatformError(rs).Some? then Err(PlatformError(rs).value) else Assemble(Manifests(rs), Digests(rs))
  }

  /** runContentGate: all scans first, then the set of platforms seen, then the assembly. */
  method RunContentGate(tools: Tools, inputs: seq<Input>) returns (r: Result<Index>)
    ensures r == RunGate(tools, inputs)
  {
    hide ScanAll, Assemble, PlatformError;
    var rs := ScanEach(tools, inputs);
    if rs.Err? { return Err(rs.error); }
    var e := CheckPlatforms(rs.value);
    if e.Some? { return Err(e.value); }
    r := AssembleIndex(Manifests(rs.value), Digests(rs.value));
  }

  method ScanEach(tools: Tools, inputs: seq<Input>) returns (r: Result<seq<Scanned>>)
    ensures r == ScanAll(tools, inputs)
  {
    hide ScanPlatform;
    var rs: seq<Scanned> := [];
    var i := 0;
    while i < |inputs|
      invariant 0 <= i <= |inputs| && ScanAll(tools, inputs[..i]) == Ok(rs)
    {
      assert inputs[..i + 1][..i] == inputs[..i];
      var one := ScanPlatform(tools, inputs[i]);
      if one.Err? {
        ScanStops(tools, inputs, i);
        return Err(one.error);
      }
      rs := rs + [one.value];
      i := i + 1;
    }
    assert inputs[..i] == inputs;
    r := Ok(rs);
  }

  method CheckPlatforms(rs: seq<Scanned>) returns (e: Option<GateError>)
    ensures e == PlatformError(rs)
  {
    hide PlatformsOf;
    var seen: set<string> := {};
    var i := 0;
    SeenSoFar(rs, 0);
    while i < |rs|
      invariant 0 <= i <= |rs| && seen == PlatformsOf(rs[..i])
      invariant forall k, m :: 0 <= k < m < i ==> rs[k].platform != rs[m].platform
    {
      SeenSoFar(rs, i);
      if rs[i].platform in seen { return Some(DuplicatePlatform); }
      seen := seen + {rs[i].platform};
      i := i + 1;
    }
    SeenSoFar(rs, |rs|);
    if exists p :: p in seen && p !in REQUIRED {
      assert exists k :: 0 <= k < |rs| && rs[k].platform !in REQUIRED;
      return Some(ExtraPlatform);
    }
    assert forall k :: 0 <= k < |rs| ==> rs[k].platform in seen;
    if REQUIRED[0] !in seen || REQUIRED[1] !in seen {
      assert exists p :: p in REQUIRED && p !in seen && forall k :: 0 <= k < |rs| ==> rs[k].platform != p;
      return Some(MissingPlatform);
    }
    forall p | p in REQUIRED ensures exists k :: 0 <= k < |rs| && rs[k].platform == p {
      assert p == REQUIRED[0] || p == REQUIRED[1];
    }
    e := None;
  }

  function PlatformsOf(rs: seq<Scanned>): set<string> { set r | r in rs :: r.platform }

  lemma SeenSoFar(rs: seq<Scanned>, i: nat)
    requires i <= |rs|
    ensures i == 0 ==> PlatformsOf(rs[..i]) == {}
    ensures forall p :: p in PlatformsOf(rs[..i]) <==> exists k :: 0 <= k < i && rs[k].platform == p
    ensures i < |rs| ==> PlatformsOf(rs[..i + 1]) == PlatformsOf(rs[..i]) + {rs[i].platform}
  {
    forall p ensures p in PlatformsOf(rs[..i]) <==> exists k :: 0 <= k < i && rs[k].platform == p {
      if p in PlatformsOf(rs[..i]) {
        var r :| r in rs[..i] && r.platform == p;
        var k :| 0 <= k < i && rs[..i][k] == r;
        assert rs[k].platform == p;
      }
      if k :| 0 <= k < i && rs[k].platform == p { assert rs[..i][k] in rs[..i]; }
    }
    if i < |rs| { assert rs[..i + 1] == rs[..i] + [rs[i]]; }
  }

  lemma {:induction false} ScanStops(tools: Tools, inputs: seq<Input>, i: nat)
    requires i < |inputs| && ScanAll(tools, inputs[..i]).Ok? && ScanPlatform(tools, inputs[i]).Err?
    ensures ScanAll(tools, inputs) == Err(ScanPlatform(tools, inputs[i]).error)
    decreases |inputs|
  {
    hide ScanPlatform;
    var n := |inputs| - 1;
    if i < n {
      assert inputs[..n][..i] == inputs[..i];
      ScanStops(tools, inputs[..n], i);
    }
  }

  // ------------------------------------------------------------------ what passing means

  /** This input passes on its own, and its descriptor is fit for the index. */
  predicate Passes(tools: Tools, input: Input) {
    ScanPlatform(tools, input).Ok? && ShapeOk(ScanPlatform(tools, input).value.manifest)
  }

  lemma ScanKeepsPlatform(tools: Tools, input: Input)
    requires ScanPlatform(tools, input).Ok?
    ensures ScanPlatform(tools, input).value.platform == input.platform
    ensures Passes(tools, input) && input.platform in REQUIRED ==> PlatformKey(ScanPlatform(tools, input).value.manifest.platform) == input.platform
  {
    hide Resolve, ScanImage, LoadManifest, DigestOk, ArchitectureOf, FirstInvalid;
    Architectures();
  }

  lemma Architectures()
    ensures forall p :: p in REQUIRED ==> LINUX + "/" + ArchitectureOf(p) == p
  {
    hide AfterSlash, UpToSlash;
    assert '/' !in LINUX && '/' !in "amd64" && '/' !in "arm64";
    SlashAt(LINUX, "amd64");
    SlashAt(LINUX, "arm64");
    NoSlash("amd64");
    NoSlash("arm64");
    forall p | p in REQUIRED ensures LINUX + "/" + ArchitectureOf(p) == p {
      assert p == REQUIRED[0] || p == REQUIRED[1];
    }
  }

  lemma SlashAt(a: string, b: string)
    requires '/' !in a
    ensures AfterSlash(a + "/" + b) == b
  {
    if a == "" {
      assert (a + "/" + b)[1..] == b;
    } else {
      assert (a + "/" + b)[1..] == a[1..] + "/" + b;
      SlashAt(a[1..], b);
    }
  }

  lemma NoSlash(a: string)
    requires '/' !in a
    ensures UpToSlash(a) == a
  {
    if a != "" { NoSlash(a[1..]); }
  }

  lemma {:induction false} ScanAllMeans(tools: Tools, inputs: seq<Input>)
    ensures ScanAll(tools, inputs).Ok? <==> forall i :: 0 <= i < |inputs| ==> ScanPlatform(tools, inputs[i]).Ok?
    ensures ScanAll(tools, inputs).Ok? ==>
              forall i :: 0 <= i < |inputs| ==> ScanAll(tools, inputs).value[i] == ScanPlatform(tools, inputs[i]).value
  {
    hide ScanPlatform;
    if inputs != [] {
      ScanAllMeans(tools, inputs[..|inputs| - 1]);
      assert forall i :: 0 <= i < |inputs| - 1 ==> inputs[..|inputs| - 1][i] == inputs[i];
    }
  }

  /** The two platforms, in some order. */
  predicate BothPlatforms(inputs: seq<Input>) {
    |inputs| == 2 &&
    ((inputs[0].platform == REQUIRED[0] && inputs[1].platform == REQUIRED[1]) || (inputs[0].platform == REQUIRED[1] && inputs[1].platform == REQUIRED[0]))
  }

  /** The one descriptor scanned for a required platform. */
  function ScannedFor(tools: Tools, inputs: seq<Input>, platform: string): Descriptor
    requires BothPlatforms(inputs) && platform in REQUIRED && Passes(tools, inputs[0]) && Passes(tools, inputs[1])
  {
    if inputs[0].platform == platform then ScanPlatform(tools, inputs[0]).value.manifest else ScanPlatform(tools, inputs[1]).value.manifest
  }

  /**
   * The gate passes exactly when it is given one passing layout for each required platform and nothing else;
   * the index then lists their two descriptors in fixed order, whatever the order of the inputs.
   */
  lemma GateExactly(tools: Tools, inputs: seq<Input>)
    ensures RunGate(tools, inputs).Ok? <==> BothPlatforms(inputs) && Passes(tools, inputs[0]) && Passes(tools, inputs[1])
    ensures RunGate(tools, inputs).Ok? ==>
              RunGate(tools, inputs).value == Index([ScannedFor(tools, inputs, REQUIRED[0]), ScannedFor(tools, inputs, REQUIRED[1])])
  {
    hide ScanPlatform, ScanAll, ShapeOk, Assemble;
    RequiredDiffer();
    ScanAllMeans(tools, inputs);
    if ScanAll(tools, inputs).Ok? {
      var rs := ScanAll(tools, inputs).value;
      forall i | 0 <= i < |inputs| ensures rs[i] == ScanPlatform(tools, inputs[i]).value && rs[i].platform == inputs[i].platform {
        ScanKeepsPlatform(tools, inputs[i]);
      }
      if RunGate(tools, inputs).Ok? { TwoPlatforms(rs); }
      if BothPlatforms(inputs) { AssembleTwo(tools, inputs, rs); }
    }
  }

  /** Distinct, all required, none missing: exactly two. */
  lemma TwoPlatforms(rs: seq<Scanned>)
    requires forall i, j :: 0 <= i < j < |rs| ==> rs[i].platform != rs[j].platform
    requires forall i :: 0 <= i < |rs| ==> rs[i].platform in REQUIRED
    requires forall p :: p in REQUIRED ==> exists i :: 0 <= i < |rs| && rs[i].platform == p
    ensures |rs| == 2 && ((rs[0].platform == REQUIRED[0] && rs[1].platform == REQUIRED[1]) || (rs[0].platform == REQUIRED[1] && rs[1].platform == REQUIRED[0]))
  {
    RequiredDiffer();
    assert REQUIRED[0] in REQUIRED && REQUIRED[1] in REQUIRED;
    var a :| 0 <= a < |rs| && rs[a].platform == REQUIRED[0];
    var b :| 0 <= b < |rs| && rs[b].platform == REQUIRED[1];
    forall i | 0 <= i < |rs| ensures rs[i].platform == REQUIRED[0] || rs[i].platform == REQUIRED[1] { assert rs[i].platform in REQUIRED; }
    if |rs| > 2 { TooMany(rs); }
  }

  lemma TooMany(rs: seq<Scanned>)
    requires |rs| > 2 && forall i, j :: 0 <= i < j < |rs| ==> rs[i].platform != rs[j].platform
    ensures exists i :: 0 <= i < |rs| && rs[i].platform !in REQUIRED
  {
    if rs[0].platform in REQUIRED && rs[1].platform in REQUIRED {
      assert forall p :: p in REQUIRED ==> p == REQUIRED[0] || p == REQUIRED[1];
      assert rs[2].platform !in REQUIRED;
    }
  }

  lemma RequiredDiffer()
    ensures REQUIRED[0] != REQUIRED[1]
  {
    assert REQUIRED[0][|LINUX| + 2] == "amd64"[1] && REQUIRED[1][|LINUX| + 2] == "arm64"[1];
  }

  lemma AssembleTwo(tools: Tools, inputs: seq<Input>, rs: seq<Scanned>)
    requires BothPlatforms(inputs) && |rs| == 2 && ScanPlatform(tools, inputs[0]).Ok? && ScanPlatform(tools, inputs[1]).Ok?
    requires rs[0] == ScanPlatform(tools, inputs[0]).value && rs[1] == ScanPlatform(tools, inputs[1]).value
    ensures Assemble(Manifests(rs), Digests(rs)).Ok? <==> Passes(tools, inputs[0]) && Passes(tools, inputs[1])
    ensures Passes(tools, inputs[0]) && Passes(tools, inputs[1]) ==>
              Assemble(Manifests(rs), Digests(rs)).value == Index([ScannedFor(tools, inputs, REQUIRED[0]), ScannedFor(tools, inputs, REQUIRED[1])])
  {
    hide ScanPlatform, DigestOk;
    RequiredDiffer();
    ScanKeepsPlatform(tools, inputs[0]);
    ScanKeepsPlatform(tools, inputs[1]);
    var cs := Manifests(rs);
    if Passes(tools, inputs[0]) && Passes(tools, inputs[1]) {
      assert rs[0] in rs && rs[1] in rs;
      assert cs[..1] == [cs[0]] && cs[..1][..0] == [] && cs[..2] == cs;
      assert forall i :: 0 <= i < |cs| ==> ShapeOk(cs[i]);
      assert Seat(cs[..1], Digests(rs)) == Ok(map[PlatformKey(cs[0].platform) := cs[0]]);
    } else {
      assert !ShapeOk(cs[0]) || !ShapeOk(cs[1]);
    }
  }

  /** The order of the inputs does not matter. */
  lemma OrderIrrelevant(tools: Tools, a: Input, b: Input)
    ensures RunGate(tools, [a, b]).Ok? <==> RunGate(tools, [b, a]).Ok?
    ensures RunGate(tools, [a, b]).Ok? ==> RunGate(tools, [a, b]) == RunGate(tools, [b, a])
  {
    hide RunGate, Passes;
    RequiredDiffer();
    GateExactly(tools, [a, b]);
    GateExactly(tools, [b, a]);
  }

  /** A passing layout resolves soundly to exactly one image; its blobs are verified, its entries and its config clean. */
  lemma ScanMeans(tools: Tools, input: Input)
    requires ScanPlatform(tools, input).Ok?
    ensures var layout := tools.loadLayout(input.tar).value;
            var leaves := Leaves(tools, layout.blobs, layout.index, MAX_DEPTH);
            tools.loadLayout(input.tar).Ok? && Sound(tools, layout.blobs, layout.index, MAX_DEPTH) &&
            AllValid(tools, layout.blobs, OfKind(leaves, true)) && |OfKind(leaves, false)| == 1 &&
            var d := OfKind(leaves, false)[0];
            LoadManifest(tools, layout.blobs, d).Ok? && var m := LoadManifest(tools, layout.blobs, d).value;
            WalkAllLayers(tools, layout.blobs, m.layers).Ok? && tools.cleanEntries(WalkAllLayers(tools, layout.blobs, m.layers).value) &&
            Validated(tools, m.config, layout.blobs).Ok? && tools.isJson(layout.blobs[m.config.digest]) &&
            tools.cleanConfig(layout.blobs[m.config.digest]) && ScanPlatform(tools, input).value.manifest == WithPlatform(d, input.platform)
  {
    hide Sound, Leaves, Resolve, WalkAllLayers, LoadManifest, OfKind;
    var layout := tools.loadLayout(input.tar).value;
    ResolveMeans(tools, layout.blobs, layout.index, 0);
  }
}
