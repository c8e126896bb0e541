/** Schema-version migration of tenant.yaml and site.yaml (internal/migrate/yaml/migrator.go).

    The YAML library is a codec; a file system maps paths to contents; the registry maps a version to the
    transformer that leads to the next one. */
module Migrate {
  import opened Projects

  predicate FitsInt64(i: int) { -0x8000_0000_0000_0000 <= i < 0x8000_0000_0000_0000 }

  type Int64 = i: int | FitsInt64(i)

  // A finite float64 as mantissa * 2^exponent, in one way only.
  datatype Dyadic = Dyadic(mantissa: int, exponent: int)
  type Float64 = d: Dyadic | (if d.mantissa == 0 then d.exponent == 0 else d.mantissa % 2 == 1) witness Dyadic(0, 0)

  datatype Value = Int(i: int) | Float(f: Float64) | Other(s: string)
  type Doc = map<string, Value>
  type Fs = map<string, string>
  datatype Codec = Codec(parse: string -> Option<Doc>, format: Doc -> string)
  type Registry = map<int, Doc -> Option<Doc>>

  function Pow2(n: nat): (r: nat)
    ensures r > 0
  {
    if n == 0 then 1 else 2 * Pow2(n - 1)
  }

  // int(f) of a float64 truncates toward zero.
  function Truncate(f: Float64): (r: int)
    ensures f.exponent >= 0 ==> r == f.mantissa * Pow2(f.exponent)
    ensures f.exponent < 0 && f.mantissa >= 0 ==>
              r * Pow2(-f.exponent) <= f.mantissa < (r + 1) * Pow2(-f.exponent)
    ensures f.exponent < 0 && f.mantissa <= 0 ==>
              (r - 1) * Pow2(-f.exponent) < f.mantissa <= r * Pow2(-f.exponent)
  {
    if f.exponent >= 0 then f.mantissa * Pow2(f.exponent)
    else if f.mantissa >= 0 then
      DivisionBounds(f.mantissa, Pow2(-f.exponent));
      f.mantissa / Pow2(-f.exponent)
    else
      DivisionBounds(-f.mantissa, Pow2(-f.exponent));
      -((-f.mantissa) / Pow2(-f.exponent))
  }

  lemma DivisionBounds(m: nat, d: nat)
    requires d > 0
    ensures (m / d) * d <= m < (m / d + 1) * d
  {
  }

  // What may be read back for a printed value: a whole float64 is printed without a point and may come back as int.
  predicate ReadsAs(v: Value, w: Value) {
    w == v || (v.Float? && v.f.exponent >= 0 && FitsInt64(Truncate(v.f)) && w == Int(Truncate(v.f)))
  }

  predicate DocReadsAs(d: Doc, e: Doc) {
    e.Keys == d.Keys && forall k :: k in d ==> ReadsAs(d[k], e[k])
  }

  // What the program needs of the library: a printed document is read back, whole floats aside, as it was. Module
  // PrintedDocs shows that such codecs exist.
  ghost predicate Faithful(c: Codec) {
    forall d: Doc :: c.parse(c.format(d)).Some? && DocReadsAs(d, c.parse(c.format(d)).value)
  }

  // Write faults of one MigrateFile call. A failed write leaves what it leaves: `torn` in the file itself, and in
  // the side-car `bakTorn`, or nothing new.
  datatype Faults = Faults(bakFails: bool, bakTorn: Option<string>, writeFails: bool, torn: string)

  // Missing and non-numeric versions read as 0, and so do integers beyond int64, which the library returns as
  // uint64: the callers drop the error.
  function SchemaVersion(d: Doc): int {
    if "schema_version" !in d then 0
    else match d["schema_version"]
      case Int(i) => if FitsInt64(i) then i else 0
      case Float(f) => Truncate(f)
      case Other(_) => 0
  }

  // The version of a document, kind by kind.
  lemma VersionByKind(d: Doc)
    ensures "schema_version" !in d ==> SchemaVersion(d) == 0
    ensures "schema_version" in d ==>
      var v := d["schema_version"];
      && (v.Other? ==> SchemaVersion(d) == 0)
      && (v.Int? ==>
           SchemaVersion(d) == if -0x8000_0000_0000_0000 <= v.i < 0x8000_0000_0000_0000 then v.i else 0)
      && (v.Float? && v.f.exponent >= 0 ==> SchemaVersion(d) == v.f.mantissa * Pow2(v.f.exponent))
  {
  }

  // One registered step, then the stamp.
  function Step(reg: Registry, v: int, d: Doc): Option<Doc> {
    if v !in reg then None
    else match reg[v](d)
      case None => None
      case Some(d') => Some(d'["schema_version" := Int(v + 1)])
  }

  // The registered transforms from version `from` to `upTo`, one after the other.
  function Chain(reg: Registry, from: int, upTo: int, d: Doc): Option<Doc>
    decreases upTo - from
  {
    if from >= upTo then Some(d)
    else match Step(reg, from, d)
      case None => None
      case Some(d') => Chain(reg, from + 1, upTo, d')
  }

  lemma {:induction false} ChainExtends(reg: Registry, from: int, v: int, d: Doc)
    requires from <= v
    ensures Chain(reg, from, v + 1, d) ==
            match Chain(reg, from, v, d) case None => None case Some(e) => Step(reg, v, e)
    decreases v - from
  {
    if from < v {
      match Step(reg, from, d)
      case None =>
      case Some(d') => ChainExtends(reg, from + 1, v, d');
    } else if Step(reg, v, d).Some? {
      assert Chain(reg, v + 1, v + 1, Step(reg, v, d).value) == Some(Step(reg, v, d).value);
    }
  }

  lemma {:induction false} ChainStops(reg: Registry, from: int, v: int, upTo: int, d: Doc)
    requires from <= v <= upTo && Chain(reg, from, v, d).None?
    ensures Chain(reg, from, upTo, d).None?
    decreases v - from
  {
    match Step(reg, from, d)
    case None =>
    case Some(d') => ChainStops(reg, from + 1, v, upTo, d');
  }

  lemma {:induction false} ChainReachesTarget(reg: Registry, from: int, upTo: Int64, d: Doc)
    requires from < upTo && Chain(reg, from, upTo, d).Some?
    ensures SchemaVersion(Chain(reg, from, upTo, d).value) == upTo
    decreases upTo - from
  {
    var d' := Step(reg, from, d).value;
    if from + 1 < upTo {
      ChainReachesTarget(reg, from + 1, upTo, d');
    } else {
      assert Chain(reg, from + 1, upTo, d') == Some(d');
    }
  }

  // The transform registered for version `v` accepts `d`, and `e` is what it makes of it, stamped with v + 1.
  predicate Transforms(reg: Registry, v: int, d: Doc, e: Doc) {
    v in reg && reg[v](d).Some? && e == reg[v](d).value["schema_version" := Int(v + 1)]
  }

  // The documents of a migration: each is what the transform registered for its version makes of the one before,
  // stamped with the next version.
  predicate IsTrace(reg: Registry, from: int, trace: seq<Doc>) {
    trace != [] && forall i, j :: 0 <= i && j == i + 1 < |trace| ==> Transforms(reg, from + i, trace[i], trace[j])
  }

  ghost predicate Leads(reg: Registry, from: int, upTo: int, d: Doc, out: Doc) {
    exists trace ::
      IsTrace(reg, from, trace) && |trace| == upTo - from + 1 && trace[0] == d && trace[upTo - from] == out
  }

  lemma {:induction false} ChainHasTrace(reg: Registry, from: int, upTo: int, d: Doc) returns (trace: seq<Doc>)
    requires from <= upTo && Chain(reg, from, upTo, d).Some?
    ensures IsTrace(reg, from, trace) && |trace| == upTo - from + 1
    ensures trace[0] == d && trace[upTo - from] == Chain(reg, from, upTo, d).value
    decreases upTo - from
  {
    if from == upTo {
      trace := [d];
    } else {
      var rest := ChainHasTrace(reg, from + 1, upTo, Step(reg, from, d).value);
      trace := [d] + rest;
      forall i, j | 0 <= i && j == i + 1 < |trace| ensures Transforms(reg, from + i, trace[i], trace[j]) {
        if i > 0 {
          assert Transforms(reg, from + 1 + (i - 1), rest[i - 1], rest[j - 1]);
        }
      }
    }
  }

  lemma {:induction false} TraceIsChain(reg: Registry, from: int, upTo: int, trace: seq<Doc>)
    requires IsTrace(reg, from, trace) && |trace| == upTo - from + 1
    ensures Chain(reg, from, upTo, trace[0]) == Some(trace[upTo - from])
    decreases upTo - from
  {
    if from < upTo {
      var rest := trace[1..];
      forall i, j | 0 <= i && j == i + 1 < |rest| ensures Transforms(reg, from + 1 + i, rest[i], rest[j]) {
        assert Transforms(reg, from + (i + 1), trace[i + 1], trace[j + 1]);
      }
      assert Transforms(reg, from, trace[0], trace[1]);
      TraceIsChain(reg, from + 1, upTo, rest);
      assert Step(reg, from, trace[0]) == Some(trace[1]);
    }
  }

  // The chain is the composition of the registered transforms, and nothing but it: it has a result exactly if every
  // step from one version to the next is registered and accepts what the one before it made.
  lemma ChainIff(reg: Registry, from: int, upTo: int, d: Doc, out: Doc)
    requires from <= upTo
    ensures Chain(reg, from, upTo, d) == Some(out) <==> Leads(reg, from, upTo, d, out)
  {
    if Chain(reg, from, upTo, d) == Some(out) {
      var trace := ChainHasTrace(reg, from, upTo, d);
    } else if Leads(reg, from, upTo, d, out) {
      var trace :|
        IsTrace(reg, from, trace) && |trace| == upTo - from + 1 && trace[0] == d && trace[upTo - from] == out;
      TraceIsChain(reg, from, upTo, trace);
    }
  }

  function Bak(path: string): string { path + ".bak" }

  datatype Outcome = Migrated | Unneeded | Failed

  datatype Effect = Effect(fs: Fs, outcome: Outcome)

  // MigrateFile, as a function on the file system.
  function MigrateSpec(c: Codec, reg: Registry, fs: Fs, path: string, target: Int64, io: Faults): Effect {
    if path !in fs || c.parse(fs[path]).None? then Effect(fs, Failed)
    else
      var doc := c.parse(fs[path]).value;
      if SchemaVersion(doc) >= target then Effect(fs, Unneeded)
      else if io.bakFails then Effect(if io.bakTorn.Some? then fs[Bak(path) := io.bakTorn.value] else fs, Failed)
      else
        var saved := fs[Bak(path) := fs[path]];
        match Chain(reg, SchemaVersion(doc), target, doc)
        case None => Effect(saved, Failed)
        case Some(out) =>
          if io.writeFails then Effect(saved[path := io.torn], Failed)
          else Effect(saved[path := c.format(out)], Migrated)
  }

  // ---- One file ----

  lemma SameVersion(d: Doc, e: Doc)
    requires DocReadsAs(d, e)
    ensures SchemaVersion(e) == SchemaVersion(d)
  {
    if "schema_version" in d {
      assert ReadsAs(d["schema_version"], e["schema_version"]);
    }
  }

  // A migrated file reads as the composition of the registered transforms from its version to the target, carries
  // the target version, and its old bytes are in the side-car; every other file is as it was.
  lemma MigratedFile(c: Codec, reg: Registry, fs: Fs, path: string, target: Int64, io: Faults)
    requires Faithful(c) && MigrateSpec(c, reg, fs, path, target, io).outcome == Migrated
    ensures var fs' := MigrateSpec(c, reg, fs, path, target, io).fs;
            var out := Chain(reg, SchemaVersion(c.parse(fs[path]).value), target, c.parse(fs[path]).value);
            && out.Some? && c.parse(fs'[path]).Some? && DocReadsAs(out.value, c.parse(fs'[path]).value)
            && SchemaVersion(c.parse(fs'[path]).value) == target
            && fs'[Bak(path)] == fs[path]
            && forall q :: q != path && q != Bak(path) ==> (q in fs' <==> q in fs) && (q in fs ==> fs'[q] == fs[q])
  {
    var doc := c.parse(fs[path]).value;
    ChainReachesTarget(reg, SchemaVersion(doc), target, doc);
    var out := Chain(reg, SchemaVersion(doc), target, doc).value;
    SameVersion(out, c.parse(c.format(out)).value);
    assert path != Bak(path) by {
      assert |Bak(path)| == |path| + 4;
    }
  }

  // In terms of the registered transforms alone: what a migrated file is read as can be reached from what it was read
  // as before, one registered transform and stamp after the other, from its version up to the target.
  lemma MigratedStepByStep(c: Codec, reg: Registry, fs: Fs, path: string, target: Int64, io: Faults) returns (out: Doc)
    requires Faithful(c) && MigrateSpec(c, reg, fs, path, target, io).outcome == Migrated
    ensures path in fs && c.parse(fs[path]).Some?
    ensures var d, e := c.parse(fs[path]).value, c.parse(MigrateSpec(c, reg, fs, path, target, io).fs[path]);
            Leads(reg, SchemaVersion(d), target, d, out) && e.Some? && DocReadsAs(out, e.value)
  {
    MigratedFile(c, reg, fs, path, target, io);
    var d := c.parse(fs[path]).value;
    out := Chain(reg, SchemaVersion(d), target, d).value;
    ChainIff(reg, SchemaVersion(d), target, d, out);
  }

  // Migrating again changes nothing and says so.
  lemma MigrationIsIdempotent(c: Codec, reg: Registry, fs: Fs, path: string, target: Int64, io: Faults, io2: Faults)
    requires Faithful(c) && MigrateSpec(c, reg, fs, path, target, io).outcome == Migrated
    ensures var fs' := MigrateSpec(c, reg, fs, path, target, io).fs;
            MigrateSpec(c, reg, fs', path, target, io2) == Effect(fs', Unneeded)
  {
    MigratedFile(c, reg, fs, path, target, io);
  }

  // A call that does not migrate leaves the file alone, unless the final write itself was torn; and then, as after
  // every call that got as far as the chain, the original bytes are in the side-car.
  lemma OriginalSurvives(c: Codec, reg: Registry, fs: Fs, path: string, target: Int64, io: Faults)
    requires path in fs
    ensures var e := MigrateSpec(c, reg, fs, path, target, io);
            && path in e.fs
            && (e.fs[path] == fs[path] || (Bak(path) in e.fs && e.fs[Bak(path)] == fs[path]))
            && (e.outcome != Migrated && !io.writeFails ==> e.fs[path] == fs[path])
            && (e.outcome == Unneeded ==> e.fs == fs)
  {
    assert path != Bak(path) by {
      assert |Bak(path)| == |path| + 4;
    }
  }

  // The file is there, parses and is below the target: a call gets as far as the side-car.
  predicate BelowTarget(c: Codec, fs: Fs, path: string, target: Int64) {
    path in fs && c.parse(fs[path]).Some? && SchemaVersion(c.parse(fs[path]).value) < target
  }

  predicate Survives(fs: Fs, path: string, bytes: string) {
    (path in fs && fs[path] == bytes) || (Bak(path) in fs && fs[Bak(path)] == bytes)
  }

  lemma MigratedIsNotBelow(c: Codec, reg: Registry, fs: Fs, path: string, target: Int64, io: Faults)
    requires Faithful(c) && MigrateSpec(c, reg, fs, path, target, io).outcome == Migrated
    ensures !BelowTarget(c, MigrateSpec(c, reg, fs, path, target, io).fs, path, target)
  {
    MigratedFile(c, reg, fs, path, target, io);
  }

  // The original bytes survive a second call if and only if the first one left the file alone, or what it left does
  // not look like a file to migrate, or the second one's side-car write failed without a trace. (A torn write that
  // happens to spell the original is left aside.) So a torn write that still parses below the target costs them.
  lemma OriginalSurvivesTwiceIff(c: Codec, reg: Registry, fs: Fs, path: string, target: Int64, io: Faults, io2: Faults)
    requires Faithful(c) && path in fs && io2.torn != fs[path] && io2.bakTorn != Some(fs[path])
    ensures var fs1 := MigrateSpec(c, reg, fs, path, target, io).fs;
            Survives(MigrateSpec(c, reg, fs1, path, target, io2).fs, path, fs[path]) <==>
            || fs1[path] == fs[path]
            || !BelowTarget(c, fs1, path, target)
            || (io2.bakFails && io2.bakTorn.None?)
  {
    var e1 := MigrateSpec(c, reg, fs, path, target, io);
    var e2 := MigrateSpec(c, reg, e1.fs, path, target, io2);
    assert |Bak(path)| == |path| + 4;
    OriginalSurvives(c, reg, fs, path, target, io);
    if e1.fs[path] == fs[path] {
      OriginalSurvives(c, reg, e1.fs, path, target, io2);
    } else if e2.outcome == Migrated {
      MigratedIsNotBelow(c, reg, e1.fs, path, target, io2);
      assert BelowTarget(c, fs, path, target);
    }
  }

  // Such an input, for every faithful codec: version 0 goes to version 1, the first call's write is torn to the empty
  // document, and the second call, without any fault, migrates that.
  lemma OriginalIsLost(c: Codec)
    requires Faithful(c)
    ensures var original := c.format(map["x" := Int(1)]);
            var reg: Registry := map[0 := (d: Doc) => Some(d)];
            var e1 := MigrateSpec(c, reg, map["p" := original], "p", 1, Faults(false, None, true, c.format(map[])));
            var e2 := MigrateSpec(c, reg, e1.fs, "p", 1, Faults(false, None, false, ""));
            e1.outcome == Failed && e2.outcome == Migrated && !Survives(e2.fs, "p", original)
  {
    var original, torn := c.format(map["x" := Int(1)]), c.format(map[]);
    var reg: Registry := map[0 := (d: Doc) => Some(d)];
    var doc, rest := c.parse(original).value, c.parse(torn).value;
    assert DocReadsAs(map["x" := Int(1)], doc) && DocReadsAs(map[], rest);
    assert "x" in doc && "x" !in rest && rest == map[];
    VersionOneChain(reg, doc);
    VersionOneChain(reg, rest);
    var e1 := MigrateSpec(c, reg, map["p" := original], "p", 1, Faults(false, None, true, torn));
    assert Bak("p") == "p.bak" && e1.fs == map["p" := torn, "p.bak" := original];
    var stamped := rest["schema_version" := Int(1)];
    var e2 := MigrateSpec(c, reg, e1.fs, "p", 1, Faults(false, None, false, ""));
    assert e2.fs["p"] == c.format(stamped) && e2.fs["p.bak"] == torn;
    assert DocReadsAs(stamped, c.parse(c.format(stamped)).value);
    assert "x" !in c.parse(c.format(stamped)).value;
  }

  lemma VersionOneChain(reg: Registry, d: Doc)
    requires reg.Keys == {0} && reg[0](d) == Some(d) && "schema_version" !in d
    ensures SchemaVersion(d) == 0 && Chain(reg, 0, 1, d) == Some(d["schema_version" := Int(1)])
  {
    assert Chain(reg, 1, 1, d["schema_version" := Int(1)]) == Some(d["schema_version" := Int(1)]);
  }

  // The exact condition for a migration to go through when the disk does not fail.
  lemma MigratesIff(c: Codec, reg: Registry, fs: Fs, path: string, target: Int64, io: Faults)
    requires !io.bakFails && !io.writeFails
    ensures MigrateSpec(c, reg, fs, path, target, io).outcome == Migrated <==>
            && path in fs && c.parse(fs[path]).Some?
            && var doc := c.parse(fs[path]).value;
               SchemaVersion(doc) < target && Chain(reg, SchemaVersion(doc), target, doc).Some?
  {
  }

  // ---- The walk ----

  // A file met by the walk, in order, or a directory entry that cannot be read.
  datatype Entry = File(path: string) | Unreadable

  function Base(path: string): string {
    if path == "" then ""
    else if path[|path| - 1] == '/' then ""
    else Base(path[..|path| - 1]) + [path[|path| - 1]]
  }

  predicate IsConfig(path: string) {
    Base(path) == "tenant.yaml" || Base(path) == "site.yaml"
  }

  lemma {:induction false} BaseIff(path: string, name: string)
    ensures Base(path) == name <==>
            && '/' !in name
            && (path == name
                || (|path| > |name| && path[|path| - |name| - 1] == '/' && path[|path| - |name|..] == name))
  {
    if path != "" {
      var n, init := |path| - 1, path[..|path| - 1];
      assert path == init + [path[n]];
      if name != "" {
        var m := |name| - 1;
        assert name == name[..m] + [name[m]];
        BaseIff(init, name[..m]);
        if |path| > |name| {
          assert path[|path| - |name|..] == init[|init| - m..] + [path[n]];
        }
      }
    }
  }

  // The files that the walks look at: tenant.yaml and site.yaml, in any directory.
  lemma ConfigsByName(path: string)
    ensures IsConfig(path) <==>
            || path == "tenant.yaml" || (|path| > 11 && path[|path| - 12..] == "/tenant.yaml")
            || path == "site.yaml" || (|path| > 9 && path[|path| - 10..] == "/site.yaml")
  {
    BaseIff(path, "tenant.yaml");
    BaseIff(path, "site.yaml");
    if |path| > 11 { assert path[|path| - 12..] == [path[|path| - 12]] + path[|path| - 11..]; }
    if |path| > 9 { assert path[|path| - 10..] == [path[|path| - 10]] + path[|path| - 9..]; }
    assert "/tenant.yaml" == ['/'] + "tenant.yaml" && "/site.yaml" == ['/'] + "site.yaml";
  }

  // The walk lists every file once.
  predicate DistinctFiles(entries: seq<Entry>) {
    forall i, j :: 0 <= i < j < |entries| && entries[i].File? && entries[j].File? ==> entries[i].path != entries[j].path
  }

  lemma SideCarIsNoConfig(path: string)
    ensures !IsConfig(Bak(path))
  {
    var p := Bak(path);
    assert p[|p| - 1] == 'k';
    assert Base(p) == Base(p[..|p| - 1]) + ['k'];
    assert Base(p)[|Base(p)| - 1] == 'k';
    assert "tenant.yaml"[10] == 'l' && "site.yaml"[8] == 'l';
  }

  datatype Walk = Walk(fs: Fs, migrated: seq<string>, ok: bool)

  // What the walk does at one entry.
  function EntryEffect(c: Codec, reg: Registry, fs: Fs, entry: Entry, target: Int64, io: string -> Faults): Effect {
    if entry.Unreadable? then Effect(fs, Failed)
    else if !IsConfig(entry.path) then Effect(fs, Unneeded)
    else MigrateSpec(c, reg, fs, entry.path, target, io(entry.path))
  }

  function Listed(entry: Entry, e: Effect): seq<string> {
    if entry.File? && e.outcome == Migrated then [entry.path] else []
  }

  // The files found so far, in front of what the rest of the walk yields.
  function Behind(found: seq<string>, rest: Walk): Walk {
    rest.(migrated := found + rest.migrated)
  }

  lemma BehindTwice(a: seq<string>, b: seq<string>, w: Walk)
    ensures Behind(a, Behind(b, w)) == Behind(a + b, w)
  {
    assert a + (b + w.migrated) == (a + b) + w.migrated;
  }

  // WalkAndMigrate without dry run; `io` gives the faults a path.
  function WalkSpec(c: Codec, reg: Registry, fs: Fs, entries: seq<Entry>, target: Int64, io: string -> Faults): Walk
    decreases |entries|
  {
    if entries == [] then Walk(fs, [], true)
    else
      var e := EntryEffect(c, reg, fs, entries[0], target, io);
      if e.outcome == Failed then Walk(e.fs, [], false)
      else Behind(Listed(entries[0], e), WalkSpec(c, reg, e.fs, entries[1..], target, io))
  }

  // One entry of the walk, wherever it stands.
  lemma WalkFrom(c: Codec, reg: Registry, fs: Fs, entries: seq<Entry>, i: nat, target: Int64, io: string -> Faults)
    requires i < |entries|
    ensures var e := EntryEffect(c, reg, fs, entries[i], target, io);
            WalkSpec(c, reg, fs, entries[i..], target, io) ==
            if e.outcome == Failed then Walk(e.fs, [], false)
            else Behind(Listed(entries[i], e), WalkSpec(c, reg, e.fs, entries[i + 1..], target, io))
  {
    assert entries[i..][0] == entries[i] && entries[i..][1..] == entries[i + 1..];
  }

  predicate Parses(c: Codec, fs: Fs, path: string) {
    path in fs && c.parse(fs[path]).Some?
  }

  function VersionOf(c: Codec, fs: Fs, path: string): int
    requires Parses(c, fs, path)
  {
    SchemaVersion(c.parse(fs[path]).value)
  }

  // The dry run: which files are below the target; None at the first entry that cannot be read or parsed.
  function DryRun(c: Codec, fs: Fs, entries: seq<Entry>, target: Int64): Option<seq<string>>
    decreases |entries|
  {
    if entries == [] then Some([])
    else if entries[0].Unreadable? then None
    else
      var path := entries[0].path;
      if !IsConfig(path) then DryRun(c, fs, entries[1..], target)
      else if !Parses(c, fs, path) then None
      else match DryRun(c, fs, entries[1..], target)
        case None => None
        case Some(rest) => Some((if VersionOf(c, fs, path) < target then [path] else []) + rest)
  }

  // What the startup check objects to: a configuration file that is missing, does not parse or has a version that the
  // binary does not know. Unreadable directory entries are skipped.
  predicate Offends(c: Codec, fs: Fs, entry: Entry, maxVersion: int) {
    entry.File? && IsConfig(entry.path) &&
    (entry.path !in fs || c.parse(fs[entry.path]).None? || SchemaVersion(c.parse(fs[entry.path]).value) > maxVersion)
  }

  // Two file systems agree on the configuration files of a walk.
  predicate SameConfigs(fs: Fs, fs': Fs, entries: seq<Entry>) {
    forall i :: 0 <= i < |entries| && entries[i].File? && IsConfig(entries[i].path) ==>
      var p := entries[i].path; (p in fs' <==> p in fs) && (p in fs ==> fs'[p] == fs[p])
  }

  lemma {:induction false} DryRunLooksAtConfigs(c: Codec, fs: Fs, fs': Fs, entries: seq<Entry>, target: Int64)
    requires SameConfigs(fs, fs', entries)
    ensures DryRun(c, fs, entries, target) == DryRun(c, fs', entries, target)
    decreases |entries|
  {
    if entries != [] {
      assert entries[0].File? && IsConfig(entries[0].path) ==>
        (Parses(c, fs, entries[0].path) <==> Parses(c, fs', entries[0].path));
      assert SameConfigs(fs, fs', entries[1..]) by {
        forall i | 0 <= i < |entries[1..]| && entries[1..][i].File? && IsConfig(entries[1..][i].path)
          ensures var p := entries[1..][i].path; (p in fs' <==> p in fs) && (p in fs ==> fs'[p] == fs[p])
        {
          assert entries[1..][i] == entries[i + 1];
        }
      }
      DryRunLooksAtConfigs(c, fs, fs', entries[1..], target);
    }
  }

  // An entry of a walk leaves the configuration files of the rest alone.
  lemma EntrySparesTheRest(c: Codec, reg: Registry, fs: Fs, entries: seq<Entry>, target: Int64, io: string -> Faults)
    requires entries != [] && DistinctFiles(entries)
    ensures SameConfigs(fs, EntryEffect(c, reg, fs, entries[0], target, io).fs, entries[1..])
  {
    if entries[0].File? {
      var path := entries[0].path;
      SideCarIsNoConfig(path);
      forall i | 0 <= i < |entries[1..]| && entries[1..][i].File? && IsConfig(entries[1..][i].path)
        ensures entries[1..][i].path != path && entries[1..][i].path != Bak(path)
      {
        assert entries[1..][i] == entries[i + 1];
      }
    }
  }

  // If the real walk succeeds it returns exactly the list that the dry run on the same tree announced.
  lemma {:induction false} DryRunAgrees(
    c: Codec, reg: Registry, fs: Fs, entries: seq<Entry>, target: Int64, io: string -> Faults)
    requires DistinctFiles(entries) && WalkSpec(c, reg, fs, entries, target, io).ok
    ensures DryRun(c, fs, entries, target) == Some(WalkSpec(c, reg, fs, entries, target, io).migrated)
    decreases |entries|
  {
    if entries != [] {
      var e, rest := EntryEffect(c, reg, fs, entries[0], target, io), entries[1..];
      var later := WalkSpec(c, reg, e.fs, rest, target, io);
      DryRunAgrees(c, reg, e.fs, rest, target, io);
      EntrySparesTheRest(c, reg, fs, entries, target, io);
      DryRunLooksAtConfigs(c, fs, e.fs, rest, target);
      assert [] + later.migrated == later.migrated;
    }
  }

  // The dry run in terms of the files: it fails at an unreadable entry or a configuration file that is missing or does
  // not parse, and otherwise lists exactly the configuration files below the target.
  lemma {:induction false} DryRunLists(c: Codec, fs: Fs, entries: seq<Entry>, target: Int64)
    ensures DryRun(c, fs, entries, target).None? <==>
            || Unreadable in entries
            || exists p :: File(p) in entries && IsConfig(p) && (p !in fs || c.parse(fs[p]).None?)
    ensures DryRun(c, fs, entries, target).Some? ==>
            forall p :: p in DryRun(c, fs, entries, target).value <==>
              && File(p) in entries && IsConfig(p)
              && p in fs && c.parse(fs[p]).Some? && SchemaVersion(c.parse(fs[p]).value) < target
    decreases |entries|
  {
    if entries != [] {
      DryRunLists(c, fs, entries[1..], target);
      assert entries == [entries[0]] + entries[1..];
    }
  }

  // Every configuration file below the target has a complete chain of registered transforms that accepts it.
  predicate Chained(c: Codec, reg: Registry, fs: Fs, entries: seq<Entry>, target: Int64) {
    forall i :: 0 <= i < |entries| && entries[i].File? && IsConfig(entries[i].path) ==>
      var p := entries[i].path;
      Parses(c, fs, p) && VersionOf(c, fs, p) < target ==>
        Chain(reg, VersionOf(c, fs, p), target, c.parse(fs[p]).value).Some?
  }

  lemma ChainedLooksAtConfigs(c: Codec, reg: Registry, fs: Fs, fs': Fs, entries: seq<Entry>, target: Int64)
    requires SameConfigs(fs, fs', entries)
    ensures Chained(c, reg, fs, entries, target) <==> Chained(c, reg, fs', entries, target)
  {
  }

  lemma ChainedSplit(c: Codec, reg: Registry, fs: Fs, entries: seq<Entry>, target: Int64)
    requires entries != []
    ensures Chained(c, reg, fs, entries, target) <==>
            Chained(c, reg, fs, [entries[0]], target) && Chained(c, reg, fs, entries[1..], target)
  {
    assert entries == [entries[0]] + entries[1..];
    if Chained(c, reg, fs, entries, target) {
      assert forall i :: 0 <= i < |entries[1..]| ==> entries[1..][i] == entries[i + 1];
    }
  }

  // On a disk that does not fail, the real walk succeeds if and only if the dry run does and every file that it
  // announces can be taken to the target by the registry.
  lemma {:induction false} WalkSucceedsIff(
    c: Codec, reg: Registry, fs: Fs, entries: seq<Entry>, target: Int64, io: string -> Faults)
    requires DistinctFiles(entries) && forall p :: !io(p).bakFails && !io(p).writeFails
    ensures WalkSpec(c, reg, fs, entries, target, io).ok <==>
            DryRun(c, fs, entries, target).Some? && Chained(c, reg, fs, entries, target)
    decreases |entries|
  {
    if entries != [] && entries[0].File? {
      var path, rest := entries[0].path, entries[1..];
      ChainedSplit(c, reg, fs, entries, target);
      if !IsConfig(path) {
        WalkSucceedsIff(c, reg, fs, rest, target, io);
        assert Chained(c, reg, fs, [entries[0]], target);
      } else if Parses(c, fs, path) {
        var e := MigrateSpec(c, reg, fs, path, target, io(path));
        EntrySparesTheRest(c, reg, fs, entries, target, io);
        DryRunLooksAtConfigs(c, fs, e.fs, rest, target);
        ChainedLooksAtConfigs(c, reg, fs, e.fs, rest, target);
        WalkSucceedsIff(c, reg, e.fs, rest, target, io);
        MigratesIff(c, reg, fs, path, target, io(path));
        assert e.outcome == Failed <==> !Chained(c, reg, fs, [entries[0]], target) by {
          assert [entries[0]][0] == entries[0];
        }
      }
    }
  }

  // A path that is not among the walk's configuration files or their side-cars is never written.
  lemma {:induction false} WalkSparesOthers(
    c: Codec, reg: Registry, fs: Fs, entries: seq<Entry>, target: Int64, io: string -> Faults, q: string)
    requires forall i :: 0 <= i < |entries| && entries[i].File? && IsConfig(entries[i].path) ==>
      q != entries[i].path && q != Bak(entries[i].path)
    ensures var fs' := WalkSpec(c, reg, fs, entries, target, io).fs;
            (q in fs' <==> q in fs) && (q in fs ==> fs'[q] == fs[q])
    decreases |entries|
  {
    if entries != [] && entries[0].File? {
      if IsConfig(entries[0].path) {
        WalkSparesOthers(c, reg, MigrateSpec(c, reg, fs, entries[0].path, target, io(entries[0].path)).fs,
          entries[1..], target, io, q);
      } else {
        WalkSparesOthers(c, reg, fs, entries[1..], target, io, q);
      }
    }
  }

  // `p` is brought to the target if it was below, else it is as it was.
  predicate Raised(c: Codec, fs: Fs, fs': Fs, p: string, target: Int64) {
    && Parses(c, fs, p) && Parses(c, fs', p)
    && (if VersionOf(c, fs, p) < target then VersionOf(c, fs', p) == target else fs'[p] == fs[p])
  }

  lemma EntryRaises(c: Codec, reg: Registry, fs: Fs, path: string, target: Int64, io: Faults)
    requires Faithful(c) && MigrateSpec(c, reg, fs, path, target, io).outcome != Failed
    ensures Raised(c, fs, MigrateSpec(c, reg, fs, path, target, io).fs, path, target)
  {
    if MigrateSpec(c, reg, fs, path, target, io).outcome == Migrated {
      MigratedFile(c, reg, fs, path, target, io);
    }
  }

  lemma EntrySpares(c: Codec, reg: Registry, fs: Fs, entry: Entry, target: Int64, io: string -> Faults, q: string)
    requires entry.File? && IsConfig(entry.path) ==> q != entry.path && q != Bak(entry.path)
    ensures var fs' := EntryEffect(c, reg, fs, entry, target, io).fs;
            (q in fs' <==> q in fs) && (q in fs ==> fs'[q] == fs[q])
  {
  }

  // What a successful walk makes of one configuration file: brought to the target if it was below, else untouched.
  lemma {:induction false} WalkedFile(
    c: Codec, reg: Registry, fs: Fs, entries: seq<Entry>, target: Int64, io: string -> Faults, k: nat)
    requires Faithful(c) && DistinctFiles(entries) && WalkSpec(c, reg, fs, entries, target, io).ok
    requires k < |entries| && entries[k].File? && IsConfig(entries[k].path)
    ensures Raised(c, fs, WalkSpec(c, reg, fs, entries, target, io).fs, entries[k].path, target)
    decreases |entries|
  {
    var p, rest := entries[k].path, entries[1..];
    var e := EntryEffect(c, reg, fs, entries[0], target, io);
    if k == 0 {
      EntryRaises(c, reg, fs, p, target, io(p));
      forall i | 0 <= i < |rest| && rest[i].File? && IsConfig(rest[i].path)
        ensures p != rest[i].path && p != Bak(rest[i].path) {
        assert rest[i] == entries[i + 1];
        SideCarIsNoConfig(rest[i].path);
      }
      WalkSparesOthers(c, reg, e.fs, rest, target, io, p);
    } else {
      if entries[0].File? { SideCarIsNoConfig(entries[0].path); }
      EntrySpares(c, reg, fs, entries[0], target, io, p);
      assert rest[k - 1] == entries[k];
      WalkedFile(c, reg, e.fs, rest, target, io, k - 1);
    }
  }

  // After a successful walk to `target` every configuration file parses, and its version is at most the target if and
  // only if it was at most the target before.
  lemma VersionsAfterWalk(
    c: Codec, reg: Registry, fs: Fs, entries: seq<Entry>, target: Int64, io: string -> Faults, i: nat)
    requires Faithful(c) && DistinctFiles(entries) && WalkSpec(c, reg, fs, entries, target, io).ok
    requires i < |entries| && entries[i].File? && IsConfig(entries[i].path)
    ensures var fs', p := WalkSpec(c, reg, fs, entries, target, io).fs, entries[i].path;
            && p in fs && c.parse(fs[p]).Some? && p in fs' && c.parse(fs'[p]).Some?
            && (SchemaVersion(c.parse(fs'[p]).value) > target <==> SchemaVersion(c.parse(fs[p]).value) > target)
  {
    WalkedFile(c, reg, fs, entries, target, io, i);
  }

  // A failing walk stops: it has written only the configuration files before (and at) the failure and their
  // side-cars, and everything behind it is as it was.
  lemma {:induction false} FailingWalkStops(
    c: Codec, reg: Registry, fs: Fs, entries: seq<Entry>, target: Int64, io: string -> Faults) returns (n: nat)
    requires DistinctFiles(entries) && !WalkSpec(c, reg, fs, entries, target, io).ok
    ensures n < |entries| && WalkSpec(c, reg, fs, entries[..n], target, io).ok
    ensures WalkSpec(c, reg, fs, entries[..n], target, io).migrated ==
      WalkSpec(c, reg, fs, entries, target, io).migrated
    ensures WalkSpec(c, reg, fs, entries, target, io).fs == WalkSpec(c, reg, fs, entries[..n + 1], target, io).fs
    decreases |entries|
  {
    var e := EntryEffect(c, reg, fs, entries[0], target, io);
    if e.outcome == Failed {
      n := 0;
    } else {
      var k := FailingWalkStops(c, reg, e.fs, entries[1..], target, io);
      n := k + 1;
      assert entries[..n][1..] == entries[1..][..k] && entries[..n + 1][1..] == entries[1..][..k + 1];
    }
  }

  // ---- The migrator as the source writes it ----

  // A list found so far, in front of what is still to be found.
  function BehindList(found: seq<string>, rest: Option<seq<string>>): Option<seq<string>> {
    match rest
    case None => None
    case Some(r) => Some(found + r)
  }

  class Migrator {
    const codec: Codec
    const registry: Registry
    var fs: Fs

    constructor (codec: Codec, registry: Registry, fs: Fs)
      ensures this.codec == codec && this.registry == registry && this.fs == fs
    {
      this.codec, this.registry, this.fs := codec, registry, fs;
    }

    method MigrateFile(path: string, target: Int64, io: Faults) returns (outcome: Outcome)
      modifies this`fs
      ensures Effect(fs, outcome) == MigrateSpec(codec, registry, old(fs), path, target, io)
    {
      if path !in fs {
        return Failed;
      }
      var raw := fs[path];
      var parsed := codec.parse(raw);
      if parsed.None? {
        return Failed;
      }
      var m := parsed.value;
      var current := SchemaVersion(m);
      if current >= target {
        return Unneeded;
      }
      if io.bakFails {
        if io.bakTorn.Some? {
          fs := fs[Bak(path) := io.bakTorn.value];
        }
        return Failed;
      }
      fs := fs[Bak(path) := raw];
      for v := current to target
        invariant Chain(registry, current, v, parsed.value) == Some(m) && fs == old(fs)[Bak(path) := raw]
      {
        ChainExtends(registry, current, v, parsed.value);
        if v !in registry {
          ChainStops(registry, current, v + 1, target, parsed.value);
          return Failed;
        }
        var next := registry[v](m);
        if next.None? {
          ChainStops(registry, current, v + 1, target, parsed.value);
          return Failed;
        }
        m := next.value["schema_version" := Int(v + 1)];
      }
      if io.writeFails {
        fs := fs[path := io.torn];
        return Failed;
      }
      fs := fs[path := codec.format(m)];
      outcome := Migrated;
    }

    // The callback of the walk.
    method Visit(entry: Entry, target: Int64, io: string -> Faults) returns (outcome: Outcome)
      modifies this`fs
      ensures Effect(fs, outcome) == EntryEffect(codec, registry, old(fs), entry, target, io)
    {
      if entry.Unreadable? {
        return Failed;
      }
      if !IsConfig(entry.path) {
        return Unneeded;
      }
      outcome := MigrateFile(entry.path, target, io(entry.path));
    }

    // The real walk; the dry run is CheckOnly.
    method WalkAndMigrate(
      entries: seq<Entry>, target: Int64, io: string -> Faults) returns (migrated: seq<string>, ok: bool)
      modifies this`fs
      ensures Walk(fs, migrated, ok) == WalkSpec(codec, registry, old(fs), entries, target, io)
    {
      ghost var all := WalkSpec(codec, registry, fs, entries, target, io);
      migrated := [];
      assert entries[0..] == entries;
      for i := 0 to |entries|
        invariant Behind(migrated, WalkSpec(codec, registry, fs, entries[i..], target, io)) == all
      {
        ghost var e := EntryEffect(codec, registry, fs, entries[i], target, io);
        WalkFrom(codec, registry, fs, entries, i, target, io);
        var outcome := Visit(entries[i], target, io);
        if outcome == Failed {
          return migrated, false;
        }
        BehindTwice(migrated, Listed(entries[i], e), WalkSpec(codec, registry, fs, entries[i + 1..], target, io));
        assert migrated + [] == migrated;
        if outcome == Migrated {
          migrated := migrated + [entries[i].path];
        }
      }
      ok := true;
    }

    method CheckOnly(entries: seq<Entry>, target: Int64) returns (pending: Option<seq<string>>)
      ensures pending == DryRun(codec, fs, entries, target)
    {
      var found: seq<string> := [];
      ghost var all := DryRun(codec, fs, entries, target);
      assert entries[0..] == entries && (all.Some? ==> [] + all.value == all.value);
      for i := 0 to |entries|
        invariant all == BehindList(found, DryRun(codec, fs, entries[i..], target))
      {
        assert entries[i..][0] == entries[i] && entries[i..][1..] == entries[i + 1..];
        if entries[i].Unreadable? {
          return None;
        }
        var path := entries[i].path;
        if IsConfig(path) {
          if path !in fs {
            return None;
          }
          var parsed := codec.parse(fs[path]);
          if parsed.None? {
            return None;
          }
          ghost var rest := DryRun(codec, fs, entries[i + 1..], target);
          if SchemaVersion(parsed.value) < target {
            assert rest.Some? ==> found + ([path] + rest.value) == (found + [path]) + rest.value;
            found := found + [path];
          } else {
            assert rest.Some? ==> [] + rest.value == rest.value;
          }
        }
      }
      assert entries[|entries|..] == [] && found + [] == found;
      pending := Some(found);
    }

    // The paths that the daemon's refusal to start reports.
    method CheckSchemaVersions(entries: seq<Entry>, maxVersion: int) returns (offenders: seq<string>)
      ensures forall path :: path in offenders <==>
        && File(path) in entries && IsConfig(path)
        && (path !in fs || codec.parse(fs[path]).None? || SchemaVersion(codec.parse(fs[path]).value) > maxVersion)
    {
      offenders := [];
      for i := 0 to |entries|
        invariant forall path :: path in offenders <==>
          File(path) in entries[..i] && Offends(codec, fs, File(path), maxVersion)
      {
        assert entries[..i + 1] == entries[..i] + [entries[i]];
        if entries[i].File? && IsConfig(entries[i].path) {
          var path := entries[i].path;
          if path !in fs {
            offenders := offenders + [path];
          } else {
            var parsed := codec.parse(fs[path]);
            if parsed.None? || SchemaVersion(parsed.value) > maxVersion {
              offenders := offenders + [path];
            }
          }
        }
      }
      assert entries[..|entries|] == entries;
    }

    // `controlai migrate`, then the daemon's start: after a successful migration to `target` the start is refused for
    // exactly the configuration files that were above the target before it.
    method MigrateThenStart(entries: seq<Entry>, target: Int64, io: string -> Faults)
      returns (ok: bool, offenders: seq<string>)
      requires Faithful(codec) && DistinctFiles(entries)
      modifies this`fs
      ensures ok ==> forall path :: path in offenders <==>
        && File(path) in entries && IsConfig(path)
        && path in old(fs) && codec.parse(old(fs)[path]).Some?
        && SchemaVersion(codec.parse(old(fs)[path]).value) > target
    {
      ghost var before := fs;
      var migrated;
      migrated, ok := WalkAndMigrate(entries, target, io);
      offenders := [];
      if ok {
        offenders := CheckSchemaVersions(entries, target);
        forall path | File(path) in entries && IsConfig(path)
          ensures path in before && codec.parse(before[path]).Some? && path in fs && codec.parse(fs[path]).Some?
          ensures SchemaVersion(codec.parse(fs[path]).value) > target <==>
                  SchemaVersion(codec.parse(before[path]).value) > target
        {
          var i :| 0 <= i < |entries| && entries[i] == File(path);
          VersionsAfterWalk(codec, registry, before, entries, target, io, i);
        }
      }
    }
  }
}
