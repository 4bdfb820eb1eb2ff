/**
 * Update planning in the add-on's self-updater: the version comparison, the
 * release asset choice, the sorting of files into added, modified, deleted and
 * preserved, the user's decisions and the merge progress. HTTP, zip
 * extraction and file copying are outside; the file system is given as the
 * lists of paths the walks would see.
 */
module Updater {
  import opened Common

  // ---------------------------------------------------------------- versions

  /** The number of leading ASCII digits. */
  function LeadingDigitCount(s: string): (k: nat)
    ensures k <= |s| && AllDigits(s[..k])
    ensures k < |s| ==> !IsDigit(s[k])
    ensures s != [] && IsDigit(s[0]) ==> k > 0
    decreases |s|
  {
    if s == [] || !IsDigit(s[0]) then 0
    else
      var k := 1 + LeadingDigitCount(s[1..]);
      assert forall i :: 1 <= i < k ==> s[..k][i] == s[1..][..k - 1][i - 1];
      k
  }

  /** `re.findall(r"\d+", v)` with each run read as an integer. */
  function DigitRuns(s: string): seq<nat>
    decreases |s|
  {
    if s == [] then []
    else if !IsDigit(s[0]) then DigitRuns(s[1..])
    else
      var k := LeadingDigitCount(s);
      [DigitsValue(s[..k])] + DigitRuns(s[k..])
  }

  /** Python's `>` on lists of integers: the first difference decides, and a proper prefix is smaller. */
  predicate LexGreater(a: seq<nat>, b: seq<nat>)
    decreases |a|
  {
    if a == [] then false
    else if b == [] then true
    else if a[0] != b[0] then a[0] > b[0]
    else LexGreater(a[1..], b[1..])
  }

  /** `_is_newer`: the latest version's digit runs are greater than the current one's. */
  predicate IsNewer(latest: string, current: string) {
    LexGreater(DigitRuns(latest), DigitRuns(current))
  }

  lemma {:induction false} LexIrreflexive(a: seq<nat>)
    ensures !LexGreater(a, a)
    decreases |a|
  {
    if a != [] {
      LexIrreflexive(a[1..]);
    }
  }

  lemma {:induction false} LexAsymmetric(a: seq<nat>, b: seq<nat>)
    ensures !(LexGreater(a, b) && LexGreater(b, a))
    decreases |a|
  {
    if a != [] && b != [] && a[0] == b[0] {
      LexAsymmetric(a[1..], b[1..]);
    }
  }

  lemma {:induction false} LexTransitive(a: seq<nat>, b: seq<nat>, c: seq<nat>)
    requires LexGreater(a, b) && LexGreater(b, c)
    ensures LexGreater(a, c)
    decreases |a|
  {
    if c != [] && a[0] == b[0] && b[0] == c[0] {
      LexTransitive(a[1..], b[1..], c[1..]);
    }
  }

  lemma {:induction false} LexTotal(a: seq<nat>, b: seq<nat>)
    requires a != b
    ensures LexGreater(a, b) || LexGreater(b, a)
    decreases |a|
  {
    if a != [] && b != [] && a[0] == b[0] {
      assert a == [a[0]] + a[1..] && b == [b[0]] + b[1..];
      LexTotal(a[1..], b[1..]);
    }
  }

  /**
   * `_is_newer` is a strict order on the versions' digit runs: never newer
   * than itself, never newer in both directions, transitive, and of two
   * versions with different digit runs one is always newer.
   */
  lemma IsNewerStrictOrder(a: string, b: string, c: string)
    ensures !IsNewer(a, a)
    ensures !(IsNewer(a, b) && IsNewer(b, a))
    ensures IsNewer(a, b) && IsNewer(b, c) ==> IsNewer(a, c)
    ensures DigitRuns(a) != DigitRuns(b) ==> IsNewer(a, b) || IsNewer(b, a)
  {
    LexIrreflexive(DigitRuns(a));
    LexAsymmetric(DigitRuns(a), DigitRuns(b));
    if IsNewer(a, b) && IsNewer(b, c) {
      LexTransitive(DigitRuns(a), DigitRuns(b), DigitRuns(c));
    }
    if DigitRuns(a) != DigitRuns(b) {
      LexTotal(DigitRuns(a), DigitRuns(b));
    }
  }

  /** A dotted version such as `0.20250420.1`. */
  function VersionString(ns: seq<nat>): string
    decreases |ns|
  {
    if ns == [] then ""
    else if |ns| == 1 then NatToString(ns[0])
    else NatToString(ns[0]) + "." + VersionString(ns[1..])
  }

  lemma LeadingDigitsThen(d: string, rest: string)
    requires d != [] && AllDigits(d)
    requires rest == [] || !IsDigit(rest[0])
    ensures LeadingDigitCount(d + rest) == |d|
    ensures (d + rest)[..|d|] == d && (d + rest)[|d|..] == rest
    decreases |d|
  {
    if |d| > 1 {
      LeadingDigitsThen(d[1..], rest);
      assert (d + rest)[1..] == d[1..] + rest;
    }
  }

  /** Digit runs read back every number of a dotted version, in order. */
  lemma {:induction false} DigitRunsOfVersion(ns: seq<nat>)
    ensures DigitRuns(VersionString(ns)) == ns
    decreases |ns|
  {
    if ns != [] {
      var d := NatToString(ns[0]);
      var rest := if |ns| == 1 then "" else "." + VersionString(ns[1..]);
      LeadingDigitsThen(d, rest);
      assert VersionString(ns) == d + rest;
      assert IsDigit((d + rest)[0]);
      if |ns| > 1 {
        DigitRunsOfVersion(ns[1..]);
        assert rest[1..] == VersionString(ns[1..]);
      }
    }
  }

  /** For dotted versions, `_is_newer` is exactly the comparison of their numbers, left to right. */
  lemma IsNewerOnVersions(a: seq<nat>, b: seq<nat>)
    ensures IsNewer(VersionString(a), VersionString(b)) <==> LexGreater(a, b)
  {
    DigitRunsOfVersion(a);
    DigitRunsOfVersion(b);
  }

  // ---------------------------------------------------------------- releases

  /** `str.lstrip("v")`. */
  function StripLeadingV(s: string): (r: string)
    ensures r == [] || r[0] != 'v'
    ensures exists k :: 0 <= k <= |s| && r == s[k..] && forall i :: 0 <= i < k ==> s[i] == 'v'
    decreases |s|
  {
    if s != [] && s[0] == 'v' then
      var r := StripLeadingV(s[1..]);
      var k :| 0 <= k <= |s[1..]| && r == s[1..][k..] && forall i :: 0 <= i < k ==> s[1..][i] == 'v';
      assert r == s[k + 1..];
      assert forall i :: 1 <= i < k + 1 ==> s[i] == s[1..][i - 1];
      r
    else
      assert s == s[0..];
      s
  }

  datatype Asset = Asset(name: string, downloadUrl: string)

  /** The fields of the latest-release answer the updater reads; `None` is an absent key. */
  datatype Release = Release(tagName: Option<string>, assets: seq<Asset>, zipballUrl: Option<string>, body: Option<string>)

  datatype UpdateInfo = UpdateInfo(hasUpdate: bool, latestVersion: string, downloadUrl: Option<string>, changelog: string)

  /** The position of the first asset named `*.nvda-addon`. */
  function FirstAddonAsset(assets: seq<Asset>): (r: Option<nat>)
    ensures r.Some? ==> r.value < |assets| && EndsWith(assets[r.value].name, ".nvda-addon")
    ensures r.Some? ==> forall i :: 0 <= i < r.value ==> !EndsWith(assets[i].name, ".nvda-addon")
    ensures r.None? ==> forall i :: 0 <= i < |assets| ==> !EndsWith(assets[i].name, ".nvda-addon")
    decreases |assets|
  {
    if assets == [] then None
    else if EndsWith(assets[0].name, ".nvda-addon") then Some(0)
    else match FirstAddonAsset(assets[1..])
      case None => None
      case Some(i) => Some(i + 1)
  }

  /**
   * The download URL: the first `.nvda-addon` asset's, unless there is none
   * or its URL is empty (false in Python), and then the source zip's.
   */
  function DownloadUrl(release: Release): (r: Option<string>)
    ensures FirstAddonAsset(release.assets).Some? && release.assets[FirstAddonAsset(release.assets).value].downloadUrl != "" ==>
      r == Some(release.assets[FirstAddonAsset(release.assets).value].downloadUrl)
    ensures (forall i :: 0 <= i < |release.assets| ==> !EndsWith(release.assets[i].name, ".nvda-addon")) ==>
      r == release.zipballUrl
    ensures r != release.zipballUrl ==>
      exists i :: 0 <= i < |release.assets| && r == Some(release.assets[i].downloadUrl) && r != Some("")
        && EndsWith(release.assets[i].name, ".nvda-addon")
        && forall j :: 0 <= j < i ==> !EndsWith(release.assets[j].name, ".nvda-addon")
  {
    match FirstAddonAsset(release.assets)
    case None => release.zipballUrl
    case Some(i) =>
      var url := release.assets[i].downloadUrl;
      if url == "" then release.zipballUrl else Some(url)
  }

  /** `check_for_updates` once the release answer has been read. */
  function CheckForUpdates(release: Release, current: string): (r: UpdateInfo)
    ensures r.latestVersion == [] || r.latestVersion[0] != 'v'
    ensures release.tagName.None? ==> r.latestVersion == "0.0.0"
    ensures release.body.None? ==> r.changelog == "No changelog provided."
    ensures release.body.Some? ==> r.changelog == release.body.value
    ensures r.hasUpdate ==> !IsNewer(current, r.latestVersion)
    ensures r.latestVersion == StripLeadingV(release.tagName.GetOr("0.0.0"))
    ensures r.hasUpdate <==> IsNewer(r.latestVersion, current)
    ensures r.downloadUrl == DownloadUrl(release)
  {
    var latest := StripLeadingV(release.tagName.GetOr("0.0.0"));
    IsNewerStrictOrder(latest, current, current);
    UpdateInfo(IsNewer(latest, current), latest, DownloadUrl(release), release.body.GetOr("No changelog provided."))
  }

  /** A leading `v` never changes the version's digit runs, so `v1.2` is not newer than `1.2`. */
  lemma TagPrefixIrrelevant(tag: string)
    ensures !CheckForUpdates(Release(Some("v" + tag), [], None, None), StripLeadingV(tag)).hasUpdate
  {
    assert ("v" + tag)[1..] == tag;
    IsNewerStrictOrder(StripLeadingV(tag), StripLeadingV(tag), StripLeadingV(tag));
  }

  // ---------------------------------------------------------------- changes

  /** The files an update never overwrites once they exist. */
  const PreservePrefixes: seq<string> := ["ECI.INI", "synthDrivers\\eloquence\\"]

  /** The local paths never considered for deletion. */
  const ExcludedPrefixes: seq<string> := [".git", "temp_update", ".venv", "__pycache__", "eloquence"]

  /** The folder the driver lives in, as a path prefix. */
  const DriverPrefix := "synthDrivers\\"

  predicate IsPreserved(p: string) {
    StartsWithAny(p, PreservePrefixes)
  }

  datatype Changes = Changes(added: seq<string>, modified: seq<string>, deleted: seq<string>, preserved: seq<string>)

  /**
   * The walk over the update's files, with paths relative to the add-on
   * root: a preserved file that exists is kept, otherwise a missing file is
   * added and an existing one modified.
   */
  function Classify(update: seq<string>, installed: set<string>): (r: Changes)
    ensures multiset(r.added) + multiset(r.modified) + multiset(r.preserved) == multiset(update)
    ensures forall p :: p in r.preserved ==> IsPreserved(p) && p in installed
    ensures forall p :: p in r.added ==> p !in installed
    ensures forall p :: p in r.modified ==> p in installed && !IsPreserved(p)
    ensures r.deleted == []
    decreases |update|
  {
    if update == [] then Changes([], [], [], [])
    else
      var c := Classify(update[..|update| - 1], installed);
      var p := update[|update| - 1];
      assert update == update[..|update| - 1] + [p];
      if IsPreserved(p) && p in installed then c.(preserved := c.preserved + [p])
      else if p !in installed then c.(added := c.added + [p])
      else c.(modified := c.modified + [p])
  }

  /** Every update file lands in the list its existence and the preserve prefixes choose. */
  lemma ClassifyPartition(update: seq<string>, installed: set<string>, p: string)
    requires p in update
    ensures var c := Classify(update, installed);
      && (p in c.preserved <==> IsPreserved(p) && p in installed)
      && (p in c.added <==> p !in installed)
      && (p in c.modified <==> p in installed && !IsPreserved(p))
  {
    var c := Classify(update, installed);
    assert p in multiset(update);
  }

  /** The driver folder's files, relative to that folder, in walk order. */
  function DriverFiles(installed: seq<string>): (r: seq<string>)
    ensures forall q :: q in r <==> DriverPrefix + q in installed
    decreases |installed|
  {
    if installed == [] then []
    else
      var p := installed[0];
      var rest := DriverFiles(installed[1..]);
      assert forall q :: DriverPrefix + q in installed <==> DriverPrefix + q == p || DriverPrefix + q in installed[1..];
      if StartsWith(p, DriverPrefix) then
        assert DriverPrefix + p[|DriverPrefix|..] == p;
        assert forall q :: DriverPrefix + q == p ==> q == p[|DriverPrefix|..];
        [p[|DriverPrefix|..]] + rest
      else
        assert forall q :: DriverPrefix + q != p by {
          forall q ensures DriverPrefix + q != p {
            assert (DriverPrefix + q)[..|DriverPrefix|] == DriverPrefix;
          }
        }
        rest
  }

  /**
   * The deletion walk as written: it walks the driver folder, so its paths
   * are relative to that folder, but it looks each one up among the update's
   * files and reports it with paths relative to the add-on root.
   */
  function DeletedAsWritten(update: seq<string>, installed: seq<string>): seq<string> {
    Deleted(update, DriverFiles(installed), "")
  }

  /** The deletion walk with each driver file put back under its folder first. */
  function DeletedCorrected(update: seq<string>, installed: seq<string>): seq<string> {
    Deleted(update, DriverFiles(installed), DriverPrefix)
  }

  /** The deletion walk over `local`, each path seen as `base` followed by it. */
  function Deleted(update: seq<string>, local: seq<string>, base: string): (r: seq<string>)
    ensures forall p :: p in r <==> exists q :: q in local && p == base + q && !StartsWithAny(q, ExcludedPrefixes) && p !in update && !IsPreserved(p)
    decreases |local|
  {
    if local == [] then []
    else
      var q := local[0];
      var rest := Deleted(update, local[1..], base);
      var p := base + q;
      assert forall x :: x in local <==> x == q || x in local[1..];
      if !StartsWithAny(q, ExcludedPrefixes) && p !in update && !IsPreserved(p) then [p] + rest else rest
  }

  /**
   * With the corrected walk, a path is listed as deleted exactly when it is an
   * installed driver file, not excluded, not preserved, and absent from the
   * update; so no deletion ever names a file the update brings.
   */
  lemma DeletedCorrectedExact(update: seq<string>, installed: seq<string>, p: string)
    ensures p in DeletedCorrected(update, installed) <==>
      && p in installed && StartsWith(p, DriverPrefix)
      && !StartsWithAny(p[|DriverPrefix|..], ExcludedPrefixes)
      && p !in update && !IsPreserved(p)
  {
    if p in installed && StartsWith(p, DriverPrefix) {
      assert DriverPrefix + p[|DriverPrefix|..] == p;
    }
    if p in DeletedCorrected(update, installed) {
      var q :| q in DriverFiles(installed) && p == DriverPrefix + q && !StartsWithAny(q, ExcludedPrefixes) && p !in update && !IsPreserved(p);
      assert p[..|DriverPrefix|] == DriverPrefix;
      assert p[|DriverPrefix|..] == q;
    }
  }

  /**
   * The walk as written misses the folder: a driver file the update carries
   * is still listed as deleted, under its folder-relative name, which names
   * a file at the add-on root instead; the corrected walk does not list it.
   */
  lemma {:induction false} DeletedAsWrittenMisreports(update: seq<string>, installed: seq<string>, q: string)
    requires DriverPrefix + q in installed && DriverPrefix + q in update
    requires !StartsWithAny(q, ExcludedPrefixes) && !IsPreserved(q) && q !in update
    ensures q in DeletedAsWritten(update, installed)
    ensures DriverPrefix + q !in DeletedCorrected(update, installed)
  {
    assert "" + q == q;
    DeletedCorrectedExact(update, installed, DriverPrefix + q);
  }

  /** The driver's own module is one such file: updating it alone lists it as deleted. */
  lemma DriverModuleMisreported()
    ensures "_eloquence.py" in DeletedAsWritten([DriverPrefix + "_eloquence.py"], [DriverPrefix + "_eloquence.py"])
  {
    var q := "_eloquence.py";
    DiffersAt(q, ".git", 0);
    DiffersAt(q, "temp_update", 0);
    DiffersAt(q, ".venv", 0);
    DiffersAt(q, "__pycache__", 1);
    DiffersAt(q, "eloquence", 0);
    DiffersAt(q, "ECI.INI", 0);
    DiffersAt(q, "synthDrivers\\eloquence\\", 0);
    assert !StartsWithAny(q, ExcludedPrefixes);
    assert !IsPreserved(q);
    assert q != DriverPrefix + q;
    DeletedAsWrittenMisreports([DriverPrefix + q], [DriverPrefix + q], q);
  }

  /** A path that differs from a prefix at some position does not start with it. */
  lemma DiffersAt(s: string, p: string, j: nat)
    requires j < |s| && j < |p| && s[j] != p[j]
    ensures !StartsWith(s, p)
  {
    if |p| <= |s| {
      assert s[..|p|][j] == s[j];
    }
  }

  /** `analyze_changes`, with the corrected deletion walk. */
  function AnalyzeChanges(update: seq<string>, installed: seq<string>): (r: Changes)
    ensures multiset(r.added) + multiset(r.modified) + multiset(r.preserved) == multiset(update)
    ensures forall p :: p in r.deleted ==> p in installed && p !in update && !IsPreserved(p)
    ensures forall p :: p in r.added ==> p !in installed
  {
    var c := Classify(update, set p | p in installed);
    var d := DeletedCorrected(update, installed);
    assert forall p :: p in d ==> p in installed by {
      forall p | p in d ensures p in installed {
        DeletedCorrectedExact(update, installed, p);
      }
    }
    c.(deleted := d)
  }

  // ---------------------------------------------------------------- decisions

  datatype Action = Add | Update | Delete

  /** A Python dict of decisions: keys in insertion order, each once. */
  type Decisions = seq<(string, Action)>

  predicate KeysUnique(d: Decisions) {
    forall i, j :: 0 <= i < j < |d| ==> d[i].0 != d[j].0
  }

  function Lookup(d: Decisions, k: string): (r: Option<Action>)
    ensures r.None? <==> forall i :: 0 <= i < |d| ==> d[i].0 != k
    decreases |d|
  {
    if d == [] then None
    else if d[|d| - 1].0 == k then Some(d[|d| - 1].1)
    else Lookup(d[..|d| - 1], k)
  }

  /** With unique keys, a key finds the value stored beside it. */
  lemma {:induction false} LookupAt(d: Decisions, i: nat)
    requires KeysUnique(d) && i < |d|
    ensures Lookup(d, d[i].0) == Some(d[i].1)
    decreases |d|
  {
    if i < |d| - 1 {
      var front := d[..|d| - 1];
      assert front[i] == d[i];
      LookupAt(front, i);
    }
  }

  /** The position of a key. */
  function IndexOf(d: Decisions, k: string): (r: Option<nat>)
    ensures r.None? <==> forall i :: 0 <= i < |d| ==> d[i].0 != k
    ensures r.Some? ==> r.value < |d| && d[r.value].0 == k
    decreases |d|
  {
    if d == [] then None
    else if d[0].0 == k then Some(0)
    else match IndexOf(d[1..], k)
      case None => None
      case Some(i) => Some(i + 1)
  }

  /** `d[k] = v`: a new key goes last, an existing one keeps its place and takes the new value. */
  function Assign(d: Decisions, k: string, v: Action): (r: Decisions)
    requires KeysUnique(d)
    ensures KeysUnique(r)
    ensures Lookup(r, k) == Some(v)
    ensures forall k' :: k' != k ==> Lookup(r, k') == Lookup(d, k')
    ensures |r| == |d| || r == d + [(k, v)]
    ensures (forall j :: 0 <= j < |d| ==> d[j].0 != k) ==> r == d + [(k, v)]
    ensures (exists j :: 0 <= j < |d| && d[j].0 == k) ==>
      |r| == |d| && forall j :: 0 <= j < |d| ==> r[j] == (if d[j].0 == k then (k, v) else d[j])
  {
    match IndexOf(d, k)
    case None =>
      var r := d + [(k, v)];
      assert r[..|d|] == d;
      r
    case Some(i) =>
      var r := d[i := (k, v)];
      LookupAt(r, i);
      assert forall k' :: k' != k ==> Lookup(r, k') == Lookup(d, k') by {
        forall k' | k' != k ensures Lookup(r, k') == Lookup(d, k') {
          if Lookup(d, k').Some? {
            var j :| 0 <= j < |d| && d[j].0 == k';
            LookupAt(d, j);
            LookupAt(r, j);
          }
        }
      }
      r
  }

  function AssignAll(d: Decisions, files: seq<string>, v: Action): (r: Decisions)
    requires KeysUnique(d)
    ensures KeysUnique(r)
    ensures forall k :: Lookup(r, k) == if k in files then Some(v) else Lookup(d, k)
    decreases |files|
  {
    if files == [] then d
    else
      var r := AssignAll(Assign(d, files[0], v), files[1..], v);
      assert forall k :: k in files <==> k == files[0] || k in files[1..];
      r
  }

  /** The action a file's lists give it: a later list overrides an earlier one. */
  function ActionFor(changes: Changes, f: string): Option<Action> {
    if f in changes.deleted then Some(Delete)
    else if f in changes.modified then Some(Update)
    else if f in changes.added then Some(Add)
    else None
  }

  /**
   * `show_update_dialog` once the dialog has closed: cancel gives no update
   * and no decisions; OK gives every listed file the action of the last
   * list that names it, deletions over updates over additions, and nothing
   * for any other file.
   */
  function Decide(changes: Changes, ok: bool): (r: (bool, Decisions))
    ensures !ok ==> r == (false, [])
    ensures ok ==> r.0 && KeysUnique(r.1)
    ensures ok ==> forall f :: Lookup(r.1, f) == ActionFor(changes, f)
  {
    if !ok then (false, [])
    else (true, AssignAll(AssignAll(AssignAll([], changes.added, Add), changes.modified, Update), changes.deleted, Delete))
  }

  /**
   * After `analyze_changes` the three lists never share a file, so accepting
   * the dialog gives every added file `add`, every modified file `update` and
   * every deleted file `delete`, and no other file a decision.
   */
  lemma DecisionsFollowChanges(update: seq<string>, installed: seq<string>, f: string)
    ensures var c := AnalyzeChanges(update, installed);
      var d := Decide(c, true).1;
      && (f in c.added ==> Lookup(d, f) == Some(Add))
      && (f in c.modified ==> Lookup(d, f) == Some(Update))
      && (f in c.deleted ==> Lookup(d, f) == Some(Delete))
      && (f !in c.added && f !in c.modified && f !in c.deleted ==> Lookup(d, f) == None)
  {
    var c := AnalyzeChanges(update, installed);
    if f in c.added || f in c.modified {
      assert f in multiset(update);
    }
  }

  // ---------------------------------------------------------------- merge

  datatype FileOp = Copy(path: string) | Remove(path: string)

  datatype Merge = Merge(progress: seq<int>, ops: seq<FileOp>)

  lemma MulMonotone(x: int, y: int, n: nat)
    requires x <= y
    ensures x * n <= y * n
  {
    assert y * n - x * n == (y - x) * n;
  }

  lemma DivMonotone(a: nat, b: nat, n: nat)
    requires a <= b && n > 0
    ensures a / n <= b / n
  {
    var qa, qb := a / n, b / n;
    assert qa * n <= a;
    assert b < (qb + 1) * n;
    if qb + 1 <= qa {
      MulMonotone(qb + 1, qa, n);
    }
  }

  lemma DivOfMultiple(c: nat, n: nat)
    requires n > 0
    ensures (c * n) / n == c
  {
    var q := (c * n) / n;
    assert q * n <= c * n < (q + 1) * n;
    if q + 1 <= c {
      MulMonotone(q + 1, c, n);
    }
    if c + 1 <= q {
      MulMonotone(c + 1, q, n);
    }
  }

  /** The percentages reported while applying `n` decisions, then the closing 100. */
  function Progress(n: nat): (r: seq<int>)
    ensures n == 0 ==> r == [100]
    ensures n > 0 ==> |r| == n + 1 && forall i :: 0 <= i < n ==> r[i] == (i + 1) * 100 / n
    ensures r[|r| - 1] == 100
  {
    if n == 0 then [100]
    else seq(n, i requires 0 <= i < n => (i + 1) * 100 / n) + [100]
  }

  /** Progress never goes backwards, stays within 0 to 100, and its last two reports are both 100. */
  lemma ProgressMonotone(n: nat, i: nat, j: nat)
    requires i <= j < |Progress(n)|
    ensures 0 <= Progress(n)[i] <= Progress(n)[j] <= 100
    ensures n > 0 ==> Progress(n)[n - 1] == 100
  {
    var r := Progress(n);
    if n > 0 {
      DivOfMultiple(100, n);
      assert n * 100 == 100 * n;
      forall k | 0 <= k < n ensures 0 <= r[k] <= 100 {
        DivMonotone((k + 1) * 100, n * 100, n);
      }
      if j < n {
        DivMonotone((i + 1) * 100, (j + 1) * 100, n);
      }
    }
  }

  /** What one decision does to the add-on: additions and updates copy, deletions remove what exists. */
  function Apply(decision: (string, Action), existing: set<string>): seq<FileOp> {
    match decision.1
    case Add => [Copy(decision.0)]
    case Update => [Copy(decision.0)]
    case Delete => if decision.0 in existing then [Remove(decision.0)] else []
  }

  /** The operations of the decisions taken front to back. */
  function ApplyAll(decisions: Decisions, existing: set<string>): seq<FileOp>
    decreases |decisions|
  {
    if decisions == [] then [] else Apply(decisions[0], existing) + ApplyAll(decisions[1..], existing)
  }

  lemma {:induction false} ApplyAllSnoc(decisions: Decisions, existing: set<string>)
    requires decisions != []
    ensures ApplyAll(decisions, existing) ==
      ApplyAll(decisions[..|decisions| - 1], existing) + Apply(decisions[|decisions| - 1], existing)
    decreases |decisions|
  {
    if |decisions| == 1 {
      assert decisions[..0] == [];
      assert decisions[1..] == [];
    } else {
      var rest := decisions[1..];
      ApplyAllSnoc(rest, existing);
      assert rest[..|rest| - 1] == decisions[..|decisions| - 1][1..];
      assert rest[|rest| - 1] == decisions[|decisions| - 1];
      assert decisions[..|decisions| - 1][0] == decisions[0];
    }
  }

  /**
   * Which operations the decisions give: a copy for every addition and
   * update and for nothing else, a removal for every deletion of an
   * existing file and for nothing else.
   */
  lemma {:induction false} ApplyAllOps(decisions: Decisions, existing: set<string>)
    ensures var ops := ApplyAll(decisions, existing);
      && (forall op :: op in ops && op.Remove? ==> op.path in existing && (op.path, Delete) in decisions)
      && (forall op :: op in ops && op.Copy? ==> (op.path, Add) in decisions || (op.path, Update) in decisions)
      && (forall i :: 0 <= i < |decisions| && decisions[i].1 != Delete ==> Copy(decisions[i].0) in ops)
      && (forall i :: 0 <= i < |decisions| && decisions[i].1 == Delete && decisions[i].0 in existing ==>
            Remove(decisions[i].0) in ops)
    decreases |decisions|
  {
    if decisions != [] {
      var rest := decisions[1..];
      ApplyAllOps(rest, existing);
      var ops := ApplyAll(decisions, existing);
      var head := Apply(decisions[0], existing);
      assert ops == head + ApplyAll(rest, existing);
      assert forall i :: 1 <= i < |decisions| ==> rest[i - 1] == decisions[i];
      assert forall x :: x in rest ==> x in decisions;
    }
  }

  /** Every operation touches the path of one of the decisions. */
  lemma {:induction false} ApplyAllPaths(decisions: Decisions, existing: set<string>)
    ensures forall op :: op in ApplyAll(decisions, existing) ==>
      exists i :: 0 <= i < |decisions| && decisions[i].0 == op.path
    decreases |decisions|
  {
    if decisions != [] {
      var rest := decisions[1..];
      ApplyAllPaths(rest, existing);
      var head := Apply(decisions[0], existing);
      assert ApplyAll(decisions, existing) == head + ApplyAll(rest, existing);
      forall op | op in ApplyAll(decisions, existing)
        ensures exists i :: 0 <= i < |decisions| && decisions[i].0 == op.path
      {
        if op in head {
          assert decisions[0].0 == op.path;
        } else {
          var j :| 0 <= j < |rest| && rest[j].0 == op.path;
          assert decisions[j + 1].0 == op.path;
        }
      }
    }
  }

  /**
   * `smart_merge`: the decisions applied one at a time, in the order they
   * were made, with a progress report before each and a final one.
   */
  function SmartMerge(decisions: Decisions, existing: set<string>): (r: Merge)
    ensures r.progress == Progress(|decisions|)
    ensures r.ops == ApplyAll(decisions, existing)
    ensures decisions == [] ==> r.ops == []
    ensures forall op :: op in r.ops ==> exists i :: 0 <= i < |decisions| && decisions[i].0 == op.path
    ensures forall op :: op in r.ops && op.Remove? ==> op.path in existing && (op.path, Delete) in decisions
    ensures forall i :: 0 <= i < |decisions| && decisions[i].1 != Delete ==> Copy(decisions[i].0) in r.ops
    ensures forall op :: op in r.ops && op.Copy? ==> (op.path, Add) in decisions || (op.path, Update) in decisions
    ensures forall i :: 0 <= i < |decisions| && decisions[i].1 == Delete && decisions[i].0 in existing ==>
      Remove(decisions[i].0) in r.ops
    decreases |decisions|
  {
    ApplyAllOps(decisions, existing);
    ApplyAllPaths(decisions, existing);
    if decisions == [] then Merge(Progress(0), [])
    else
      var front := SmartMerge(decisions[..|decisions| - 1], existing);
      ApplyAllSnoc(decisions, existing);
      Merge(Progress(|decisions|), front.ops + Apply(decisions[|decisions| - 1], existing))
  }
}
