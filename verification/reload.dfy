/** zonesReadDir as a pure transition of the zone registry: one directory
    listing in, the next registry out. Opening and decoding a file are I/O,
    so the compile step is a parameter. */
module Reload {
  import opened Results
  import opened Json
  import opened ZoneData
  import opened Soa
  import opened ZoneCompiler

  /** A directory entry: its name and modification time. */
  datatype FileInfo = FileInfo(name: string, modTime: int)

  /** What readZoneFile hands back: a compiled zone, or on an error the zone
      value the registry stores instead (an empty zone when decoding failed). */
  datatype Outcome = Compiled(zone: Zone) | Failed(placeholder: Zone) {

    /** The zone value the registry takes from the outcome. */
    function Entry(): Zone {
      match this
      case Compiled(zone) => zone
      case Failed(placeholder) => placeholder
    }
  }

  /** The self-describing zone set up at startup, never pruned. */
  const ReservedZone := "pgeodns"

  const JsonSuffix := ".json"

  /** strings.ToLower on one character, for the ASCII letters. */
  function LowerChar(c: char): (r: char)
    ensures r == '.' <==> c == '.'
  {
    if 'A' <= c <= 'Z' then (c as int + 32) as char else c
  }

  function ToLower(s: string): (r: string)
    ensures |r| == |s|
    ensures forall i | 0 <= i < |s| :: r[i] == LowerChar(s[i])
  {
    seq(|s|, i requires 0 <= i < |s| => LowerChar(s[i]))
  }

  predicate HasSuffix(s: string, suffix: string) {
    |suffix| <= |s| && s[|s| - |suffix|..] == suffix
  }

  /** The file filter of the directory loop: a `.json` suffix in any case. */
  predicate IsJsonFile(name: string) {
    HasSuffix(ToLower(name), JsonSuffix)
  }

  /** Lower-casing gives a lower-case letter exactly from that letter or
      its capital. */
  lemma LowerCharIs(c: char, lower: char)
    requires 'a' <= lower <= 'z'
    ensures LowerChar(c) == lower <==> c == lower || c == (lower as int - 32) as char
  {
  }

  /** The directory filter accepts exactly the names of at least five
      characters that end in a dot and the letters j, s, o, n, each in
      either case. */
  lemma JsonFileIff(name: string)
    ensures IsJsonFile(name) <==>
      && |name| >= 5
      && name[|name| - 5] == '.'
      && name[|name| - 4] in "jJ" && name[|name| - 3] in "sS"
      && name[|name| - 2] in "oO" && name[|name| - 1] in "nN"
  {
    var n := |name|;
    var low := ToLower(name);
    if n >= 5 {
      LowerCharIs(name[n - 4], 'j');
      LowerCharIs(name[n - 3], 's');
      LowerCharIs(name[n - 2], 'o');
      LowerCharIs(name[n - 1], 'n');
      assert low[n - 5..] == JsonSuffix <==>
        low[n - 5] == '.' && low[n - 4] == 'j' && low[n - 3] == 's' && low[n - 2] == 'o' && low[n - 1] == 'n';
    }
  }

  /** strings.LastIndex for one character: the last position holding c, or -1. */
  function LastIndex(s: string, c: char): (r: int)
    ensures -1 <= r < |s|
    ensures r == -1 ==> forall i | 0 <= i < |s| :: s[i] != c
    ensures r >= 0 ==> s[r] == c && forall i | r < i < |s| :: s[i] != c
  {
    if |s| == 0 then -1
    else if s[|s| - 1] == c then |s| - 1
    else LastIndex(s[..|s| - 1], c)
  }

  /** zoneNameFromFile: the name up to its last dot. Without a dot the Go
      slice bound is -1 and the call panics; here that is None. */
  function ZoneNameFromFile(name: string): (r: Option<string>)
    ensures r.None? <==> forall i | 0 <= i < |name| :: name[i] != '.'
    ensures r.Some? ==>
      && |r.value| < |name| && name[|r.value|] == '.' && r.value == name[..|r.value|]
      && forall i | |r.value| < i < |name| :: name[i] != '.'
  {
    var i := LastIndex(name, '.');
    if i < 0 then None else Some(name[..i])
  }

  /** The zone a `.json` file defines: its name without the last five characters. */
  function ZoneOf(name: string): string
    requires IsJsonFile(name)
  {
    name[..|name| - |JsonSuffix|]
  }

  /** The suffix filter guarantees a dot, so zoneNameFromFile drops exactly
      the five characters of the extension, whatever their case. */
  lemma JsonFileZoneName(name: string)
    requires IsJsonFile(name)
    ensures ZoneNameFromFile(name) == Some(ZoneOf(name))
  {
    var n := |name|;
    var low := ToLower(name);
    assert low[n - 5..] == JsonSuffix;
    assert low[n - 5] == '.';
    forall i | n - 5 < i < n
      ensures name[i] != '.'
    {
      assert low[i] == JsonSuffix[i - (n - 5)];
    }
    assert name[n - 5] == '.';
    var k := LastIndex(name, '.');
    assert k >= n - 5;
    assert k <= n - 5;
  }

  /** The zone names a listing defines. */
  function JsonZones(files: seq<FileInfo>): set<string> {
    set i | 0 <= i < |files| && IsJsonFile(files[i].name) :: ZoneOf(files[i].name)
  }

  /** `!ok || file.ModTime().After(zone.LastRead)`. */
  predicate NeedsReload(reg: map<string, Zone>, name: string, modTime: int) {
    name !in reg || modTime > reg[name].lastRead
  }

  /** The registry entry a compile outcome becomes, stamped with the file's
      time; only the read time changes. */
  function Stamp(o: Outcome, modTime: int): (z: Zone)
    ensures z.lastRead == modTime
    ensures z.origin == o.Entry().origin && z.options == o.Entry().options && z.labels == o.Entry().labels
  {
    match o
    case Compiled(zone) => zone.(lastRead := modTime)
    case Failed(placeholder) => placeholder.(lastRead := modTime)
  }

  /** One `.json` file of the loop: recompile it when its zone is unknown or
      the file is newer than the zone; otherwise leave the registry alone. */
  function ReloadFile(reg: map<string, Zone>, name: string, f: FileInfo,
                      compile: (string, string) -> Outcome): (r: map<string, Zone>)
    ensures r.Keys == reg.Keys + {name}
    ensures forall n | n in reg && n != name :: r[n] == reg[n]
    ensures NeedsReload(reg, name, f.modTime) ==> r[name] == Stamp(compile(name, f.name), f.modTime)
    ensures !NeedsReload(reg, name, f.modTime) ==> r == reg
    ensures r[name].lastRead >= f.modTime
    ensures name in reg ==> r[name].lastRead >= reg[name].lastRead
  {
    if NeedsReload(reg, name, f.modTime) then reg[name := Stamp(compile(name, f.name), f.modTime)]
    else reg
  }

  /** Appending a file to a listing adds its zone, if it is a `.json` file. */
  lemma JsonZonesSnoc(files: seq<FileInfo>)
    requires |files| > 0
    ensures var f := files[|files| - 1];
      JsonZones(files) == JsonZones(files[..|files| - 1]) + (if IsJsonFile(f.name) then {ZoneOf(f.name)} else {})
  {
    var prefix := files[..|files| - 1];
    assert forall i | 0 <= i < |prefix| :: prefix[i] == files[i];
    forall n | n in JsonZones(files)
      ensures n in JsonZones(prefix) || (IsJsonFile(files[|files| - 1].name) && n == ZoneOf(files[|files| - 1].name))
    {
      var i :| 0 <= i < |files| && IsJsonFile(files[i].name) && ZoneOf(files[i].name) == n;
      if i < |files| - 1 {
        assert ZoneOf(prefix[i].name) == n;
      }
    }
  }

  /** The loop over the listing, in listing order: the registry after the
      loop, and the set of zone names seen. */
  function ScanFiles(reg: map<string, Zone>, files: seq<FileInfo>,
                     compile: (string, string) -> Outcome): (r: (map<string, Zone>, set<string>))
    ensures r.1 == JsonZones(files)
    ensures r.0.Keys == reg.Keys + r.1
  {
    if |files| == 0 then (reg, {})
    else
      var f := files[|files| - 1];
      var (reg', seen) := ScanFiles(reg, files[..|files| - 1], compile);
      JsonZonesSnoc(files);
      if !IsJsonFile(f.name) then (reg', seen)
      else
        JsonFileZoneName(f.name);
        (ReloadFile(reg', ZoneNameFromFile(f.name).value, f, compile), seen + {ZoneOf(f.name)})
  }

  /** What one file does to the registry inside the loop. */
  function StepFile(reg: map<string, Zone>, f: FileInfo, compile: (string, string) -> Outcome): map<string, Zone> {
    if IsJsonFile(f.name) then ReloadFile(reg, ZoneOf(f.name), f, compile) else reg
  }

  /** The loop peels off its last file. */
  lemma ScanFilesStep(reg: map<string, Zone>, files: seq<FileInfo>, compile: (string, string) -> Outcome)
    requires |files| > 0
    ensures ScanFiles(reg, files, compile).0
         == StepFile(ScanFiles(reg, files[..|files| - 1], compile).0, files[|files| - 1], compile)
  {
    var f := files[|files| - 1];
    if IsJsonFile(f.name) {
      JsonFileZoneName(f.name);
    }
  }

  /** Zones the listing does not name keep their entry through the loop. */
  lemma {:induction false} ScanFilesKeepsOthers(reg: map<string, Zone>, files: seq<FileInfo>,
                                                compile: (string, string) -> Outcome, n: string)
    requires n in reg && n !in JsonZones(files)
    ensures ScanFiles(reg, files, compile).0[n] == reg[n]
  {
    if |files| > 0 {
      var f := files[|files| - 1];
      var reg' := ScanFiles(reg, files[..|files| - 1], compile).0;
      JsonZonesSnoc(files);
      ScanFilesKeepsOthers(reg, files[..|files| - 1], compile, n);
      assert reg'[n] == reg[n];
      if IsJsonFile(f.name) {
        JsonFileZoneName(f.name);
        assert ZoneOf(f.name) != n;
        assert ScanFiles(reg, files, compile).0 == ReloadFile(reg', ZoneOf(f.name), f, compile);
      } else {
        assert ScanFiles(reg, files, compile).0 == reg';
      }
    }
  }

  /** No zone's read time goes back during the loop. */
  lemma {:induction false} ScanFilesMonotone(reg: map<string, Zone>, files: seq<FileInfo>,
                                             compile: (string, string) -> Outcome, n: string)
    requires n in reg
    ensures ScanFiles(reg, files, compile).0[n].lastRead >= reg[n].lastRead
  {
    if |files| > 0 {
      var f := files[|files| - 1];
      ScanFilesMonotone(reg, files[..|files| - 1], compile, n);
      if IsJsonFile(f.name) {
        JsonFileZoneName(f.name);
      }
    }
  }

  /** After the loop every listed zone is at least as new as its file. */
  lemma {:induction false} ScanFilesFresh(reg: map<string, Zone>, files: seq<FileInfo>,
                                          compile: (string, string) -> Outcome, i: int)
    requires 0 <= i < |files| && IsJsonFile(files[i].name)
    ensures ScanFiles(reg, files, compile).0[ZoneOf(files[i].name)].lastRead >= files[i].modTime
  {
    var prefix := files[..|files| - 1];
    var n := ZoneOf(files[i].name);
    var reg' := ScanFiles(reg, prefix, compile).0;
    ScanFilesStep(reg, files, compile);
    if i < |files| - 1 {
      assert prefix[i] == files[i];
      ScanFilesFresh(reg, prefix, compile, i);
      assert n in reg' && reg'[n].lastRead >= files[i].modTime;
    }
  }

  /** The pruning loop: drop every zone not seen in this pass, except the
      reserved one. */
  function Prune(reg: map<string, Zone>, seen: set<string>): (r: map<string, Zone>)
    ensures r.Keys == reg.Keys * (seen + {ReservedZone})
    ensures forall n | n in r :: r[n] == reg[n]
  {
    map n | n in reg && (n in seen || n == ReservedZone) :: reg[n]
  }

  /** zonesReadDir: an unreadable directory leaves the registry as it was;
      otherwise every `.json` file is considered, and afterwards exactly the
      zones of the listing remain, plus the reserved zone if it was there. */
  function ZonesReadDir(reg: map<string, Zone>, listing: Result<seq<FileInfo>>,
                        compile: (string, string) -> Outcome): (r: map<string, Zone>)
    ensures listing.Failure? ==> r == reg
    ensures listing.Success? ==> r.Keys == JsonZones(listing.value) + (reg.Keys * {ReservedZone})
    ensures listing.Success? && ReservedZone in reg && ReservedZone !in JsonZones(listing.value) ==>
      r[ReservedZone] == reg[ReservedZone]
  {
    match listing
    case Failure(_) => reg
    case Success(files) =>
      var (reg', seen) := ScanFiles(reg, files, compile);
      assert ReservedZone in reg && ReservedZone !in seen ==> reg'[ReservedZone] == reg[ReservedZone] by {
        if ReservedZone in reg && ReservedZone !in seen {
          ScanFilesKeepsOthers(reg, files, compile, ReservedZone);
        }
      }
      Prune(reg', seen)
  }

  /** After a reload every listed zone is at least as new as its file. */
  lemma ReloadFresh(reg: map<string, Zone>, files: seq<FileInfo>,
                    compile: (string, string) -> Outcome)
    ensures var r := ZonesReadDir(reg, Success(files), compile);
      forall i | 0 <= i < |files| && IsJsonFile(files[i].name) ::
        r[ZoneOf(files[i].name)].lastRead >= files[i].modTime
  {
    var reg' := ScanFiles(reg, files, compile).0;
    forall i | 0 <= i < |files| && IsJsonFile(files[i].name)
      ensures reg'[ZoneOf(files[i].name)].lastRead >= files[i].modTime
    {
      ScanFilesFresh(reg, files, compile, i);
    }
  }

  /** The listing's `.json` files alone, in listing order. */
  function JsonOnly(files: seq<FileInfo>): (r: seq<FileInfo>)
    ensures |r| <= |files|
    ensures forall i | 0 <= i < |r| :: IsJsonFile(r[i].name)
  {
    if |files| == 0 then []
    else
      var rest := JsonOnly(files[..|files| - 1]);
      var f := files[|files| - 1];
      if IsJsonFile(f.name) then rest + [f] else rest
  }

  lemma {:induction false} ScanIgnoresOtherFiles(reg: map<string, Zone>, files: seq<FileInfo>,
                                                 compile: (string, string) -> Outcome)
    ensures ScanFiles(reg, files, compile) == ScanFiles(reg, JsonOnly(files), compile)
  {
    if |files| > 0 {
      var prefix := files[..|files| - 1];
      var f := files[|files| - 1];
      ScanIgnoresOtherFiles(reg, prefix, compile);
      if IsJsonFile(f.name) {
        var j := JsonOnly(files);
        assert j[..|j| - 1] == JsonOnly(prefix);
        assert j[|j| - 1] == f;
      }
    }
  }

  /** Files without the `.json` suffix play no part in a reload. */
  lemma ReloadIgnoresOtherFiles(reg: map<string, Zone>, files: seq<FileInfo>,
                                compile: (string, string) -> Outcome)
    ensures ZonesReadDir(reg, Success(files), compile) == ZonesReadDir(reg, Success(JsonOnly(files)), compile)
  {
    ScanIgnoresOtherFiles(reg, files, compile);
  }

  /** No two `.json` files of the listing name the same zone. */
  predicate DistinctZones(files: seq<FileInfo>) {
    forall i, j | 0 <= i < j < |files| && IsJsonFile(files[i].name) && IsJsonFile(files[j].name) ::
      ZoneOf(files[i].name) != ZoneOf(files[j].name)
  }

  /** The entry a listed file leaves behind: recompiled and stamped with the
      file's time when the zone was unknown or older, otherwise the old entry. */
  function Expected(reg: map<string, Zone>, f: FileInfo, compile: (string, string) -> Outcome): Zone
    requires IsJsonFile(f.name)
    requires !NeedsReload(reg, ZoneOf(f.name), f.modTime) ==> ZoneOf(f.name) in reg
  {
    var n := ZoneOf(f.name);
    if NeedsReload(reg, n, f.modTime) then Stamp(compile(n, f.name), f.modTime) else reg[n]
  }

  /** The last file of a listing decides its own zone when no earlier file
      names that zone. */
  lemma ScanFilesLastFile(reg: map<string, Zone>, files: seq<FileInfo>,
                          compile: (string, string) -> Outcome)
    requires DistinctZones(files)
    requires |files| > 0 && IsJsonFile(files[|files| - 1].name)
    ensures var f := files[|files| - 1];
      ScanFiles(reg, files, compile).0[ZoneOf(f.name)] == Expected(reg, f, compile)
  {
    var prefix := files[..|files| - 1];
    var f := files[|files| - 1];
    var n := ZoneOf(f.name);
    var reg' := ScanFiles(reg, prefix, compile).0;
    JsonFileZoneName(f.name);
    assert n !in JsonZones(prefix) by {
      forall k | 0 <= k < |prefix| && IsJsonFile(prefix[k].name)
        ensures ZoneOf(prefix[k].name) != n
      {
        assert prefix[k] == files[k];
      }
    }
    if n in reg {
      ScanFilesKeepsOthers(reg, prefix, compile, n);
    }
    assert n in reg' <==> n in reg;
    assert ScanFiles(reg, files, compile).0 == ReloadFile(reg', n, f, compile);
  }

  lemma {:induction false} ScanFilesPerFile(reg: map<string, Zone>, files: seq<FileInfo>,
                                            compile: (string, string) -> Outcome, i: int)
    requires DistinctZones(files)
    requires 0 <= i < |files| && IsJsonFile(files[i].name)
    ensures ScanFiles(reg, files, compile).0[ZoneOf(files[i].name)] == Expected(reg, files[i], compile)
  {
    if i == |files| - 1 {
      ScanFilesLastFile(reg, files, compile);
    } else {
      var prefix := files[..|files| - 1];
      var f := files[|files| - 1];
      var n := ZoneOf(files[i].name);
      var reg' := ScanFiles(reg, prefix, compile).0;
      assert prefix[i] == files[i];
      assert DistinctZones(prefix) by {
        assert forall k | 0 <= k < |prefix| :: prefix[k] == files[k];
      }
      ScanFilesPerFile(reg, prefix, compile, i);
      if IsJsonFile(f.name) {
        JsonFileZoneName(f.name);
        assert ZoneOf(f.name) != n;
        assert ScanFiles(reg, files, compile).0 == ReloadFile(reg', ZoneOf(f.name), f, compile);
      } else {
        assert ScanFiles(reg, files, compile).0 == reg';
      }
    }
  }

  /** With one file per zone, every listed zone ends up exactly as its own
      file dictates, whatever the other files hold. */
  lemma ReloadPerFile(reg: map<string, Zone>, files: seq<FileInfo>,
                      compile: (string, string) -> Outcome, i: int)
    requires DistinctZones(files)
    requires 0 <= i < |files| && IsJsonFile(files[i].name)
    ensures ZonesReadDir(reg, Success(files), compile)[ZoneOf(files[i].name)] == Expected(reg, files[i], compile)
  {
    ScanFilesPerFile(reg, files, compile, i);
  }

  lemma {:induction false} ScanFilesNoReload(reg: map<string, Zone>, files: seq<FileInfo>,
                                             compile: (string, string) -> Outcome)
    requires forall i | 0 <= i < |files| && IsJsonFile(files[i].name) ::
      ZoneOf(files[i].name) in reg && reg[ZoneOf(files[i].name)].lastRead >= files[i].modTime
    ensures ScanFiles(reg, files, compile).0 == reg
  {
    if |files| > 0 {
      var prefix := files[..|files| - 1];
      var f := files[|files| - 1];
      assert forall k | 0 <= k < |prefix| :: prefix[k] == files[k];
      ScanFilesNoReload(reg, prefix, compile);
      if IsJsonFile(f.name) {
        JsonFileZoneName(f.name);
        assert !NeedsReload(reg, ZoneOf(f.name), f.modTime);
      }
    }
  }

  /** Reading an unchanged directory a second time changes nothing, whatever
      the compile step would now produce. */
  lemma ReloadIdempotent(reg: map<string, Zone>, files: seq<FileInfo>,
                         compile: (string, string) -> Outcome, recompile: (string, string) -> Outcome)
    ensures var r := ZonesReadDir(reg, Success(files), compile);
      ZonesReadDir(r, Success(files), recompile) == r
  {
    var r := ZonesReadDir(reg, Success(files), compile);
    ReloadFresh(reg, files, compile);
    ScanFilesNoReload(r, files, recompile);
    assert Prune(r, JsonZones(files)) == r;
  }

  lemma {:induction false} ScanFilesIsolation(reg: map<string, Zone>, files: seq<FileInfo>,
                                              compile: (string, string) -> Outcome,
                                              other: (string, string) -> Outcome, n: string)
    requires forall file: string :: compile(n, file) == other(n, file)
    requires n in ScanFiles(reg, files, compile).0
    ensures ScanFiles(reg, files, compile).0[n] == ScanFiles(reg, files, other).0[n]
  {
    if |files| > 0 {
      var prefix := files[..|files| - 1];
      var f := files[|files| - 1];
      var reg1 := ScanFiles(reg, prefix, compile).0;
      var reg2 := ScanFiles(reg, prefix, other).0;
      assert reg1.Keys == reg2.Keys;
      if n in reg1 {
        ScanFilesIsolation(reg, prefix, compile, other, n);
      }
      ScanFilesStep(reg, files, compile);
      ScanFilesStep(reg, files, other);
      StepFileIsolation(reg1, reg2, f, compile, other, n);
    }
  }

  /** One file of the loop keeps two registries that agree on `n` in agreement. */
  lemma StepFileIsolation(reg1: map<string, Zone>, reg2: map<string, Zone>, f: FileInfo,
                          compile: (string, string) -> Outcome,
                          other: (string, string) -> Outcome, n: string)
    requires forall file: string :: compile(n, file) == other(n, file)
    requires reg1.Keys == reg2.Keys && (n in reg1 ==> reg1[n] == reg2[n])
    requires n in StepFile(reg1, f, compile)
    ensures StepFile(reg1, f, compile)[n] == StepFile(reg2, f, other)[n]
  {
    if IsJsonFile(f.name) && ZoneOf(f.name) == n {
      assert compile(n, f.name) == other(n, f.name);
    }
  }

  /** A zone's entry after a reload depends on the compile step only through
      that zone's own compilation: another zone failing or changing cannot
      touch it. */
  lemma ReloadIsolation(reg: map<string, Zone>, listing: Result<seq<FileInfo>>,
                        compile: (string, string) -> Outcome,
                        other: (string, string) -> Outcome, n: string)
    requires forall file: string :: compile(n, file) == other(n, file)
    ensures var r1 := ZonesReadDir(reg, listing, compile);
            var r2 := ZonesReadDir(reg, listing, other);
      (n in r1 <==> n in r2) && (n in r1 ==> r1[n] == r2[n])
  {
    if listing.Success? && n in ZonesReadDir(reg, listing, compile) {
      ScanFilesIsolation(reg, listing.value, compile, other, n);
    }
  }

  /** readZoneFile seen from the registry: `decode` stands for opening and
      decoding the file. It compiles exactly when the file decodes and the
      zone compiles, giving a zone named after the file with an SOA; on
      either failure the registry stores an empty zone. */
  function ReadZoneFile(decode: string -> Result<Json>, isIP: string -> bool,
                        zoneName: string, fileName: string): (o: Outcome)
    ensures o.Compiled? <==>
      decode(fileName).Success? && ReadZone(zoneName, decode(fileName).value, isIP).Success?
    ensures o.Compiled? ==> o.zone.origin == zoneName && HasSoa(o.zone)
    ensures o.Failed? ==> o.placeholder == EmptyZone()
  {
    match decode(fileName)
    case Failure(_) => Failed(EmptyZone())
    case Success(doc) =>
      match ReadZone(zoneName, doc, isIP)
      case Success(z) => Compiled(z)
      case Failure(_) => Failed(EmptyZone())
  }

  /** The compile step a reload runs for every file that needs it. */
  function ZoneFileCompiler(decode: string -> Result<Json>, isIP: string -> bool): (string, string) -> Outcome {
    (zoneName: string, fileName: string) => ReadZoneFile(decode, isIP, zoneName, fileName)
  }

  /** Stamping keeps the origin and the SOA of a zone. */
  lemma StampKeepsShape(o: Outcome, zoneName: string, modTime: int)
    requires o.Compiled? ==> o.zone.origin == zoneName && HasSoa(o.zone)
    requires o.Failed? ==> o.placeholder == EmptyZone()
    ensures var z := Stamp(o, modTime);
      (z.origin == zoneName && HasSoa(z)) || z == EmptyZone().(lastRead := modTime)
  {
    if o.Compiled? {
      assert Stamp(o, modTime).labels == o.zone.labels;
    }
  }

  /** Every zone a reload (re)compiles is either a well-formed zone carrying
      the file's name as its origin and an SOA at its root, or an empty
      placeholder; either way it is stamped with the file's time. */
  lemma ReloadedZoneShape(reg: map<string, Zone>, files: seq<FileInfo>,
                          decode: string -> Result<Json>, isIP: string -> bool, i: int)
    requires DistinctZones(files)
    requires 0 <= i < |files| && IsJsonFile(files[i].name)
    requires NeedsReload(reg, ZoneOf(files[i].name), files[i].modTime)
    ensures var z := ZonesReadDir(reg, Success(files), ZoneFileCompiler(decode, isIP))[ZoneOf(files[i].name)];
      && z.lastRead == files[i].modTime
      && ((z.origin == ZoneOf(files[i].name) && HasSoa(z)) || z == EmptyZone().(lastRead := files[i].modTime))
  {
    var n := ZoneOf(files[i].name);
    var compile := ZoneFileCompiler(decode, isIP);
    ReloadPerFile(reg, files, compile, i);
    assert compile(n, files[i].name) == ReadZoneFile(decode, isIP, n, files[i].name);
    StampKeepsShape(compile(n, files[i].name), n, files[i].modTime);
  }
}
