/**
 * The Fabric tasks of 100-clean_web_static.py: the archive name `do_pack`
 * chooses, the paths `do_deploy` derives from an archive path and the order of
 * the commands it issues, the short-circuit of `deploy`, and the rule by which
 * `do_clean` decides how many archives to keep.
 *
 * Commands are not run: a command is its text, and whether it succeeds is an
 * input to the task that issues it.
 */
module CleanWebStatic {
  import opened Wrappers
  import opened Attributes

  /** A Fabric operation: `local(cmd)`, `run(cmd)` or `put(local, remote)`. */
  datatype Command = Local(cmd: string) | Run(cmd: string) | Put(src: string, dst: string)

  // ----------------------------------------------------------------- do_pack

  /** `"versions/web_static_{}.tgz".format(stamp)` */
  function PackFilename(stamp: string): (f: string)
    ensures |f| == |stamp| + 24
    ensures f[..20] == "versions/web_static_" && f[20..20 + |stamp|] == stamp && f[20 + |stamp|..] == ".tgz"
  {
    "versions/web_static_" + stamp + ".tgz"
  }

  /** The commands `do_pack` issues for the timestamp text `stamp`. */
  function PackCommands(stamp: string): seq<Command> {
    [Local("mkdir -p versions"), Local("tar -cvzf " + PackFilename(stamp) + " web_static")]
  }

  /**
   * Running `cmds` one after the other inside a `try`, with `failed` the number
   * of the command that raises, if any: the commands issued, up to and
   * including the one that raised, and whether the block ran to its end.
   */
  function Issued<T>(cmds: seq<T>, failed: Option<nat>): (r: (seq<T>, bool))
    ensures r.0 <= cmds
    ensures r.1 <==> failed.None? || failed.value >= |cmds|
    ensures r.1 ==> r.0 == cmds
    ensures !r.1 ==> |r.0| == failed.value + 1
  {
    if failed.Some? && failed.value < |cmds| then (cmds[..failed.value + 1], false) else (cmds, true)
  }

  /**
   * `do_pack()` with `stamp` the `strftime("%Y%m%d%H%M%S")` of the clock and
   * `failed` the number of the command that raised, if any: the filename, or
   * `None` once a command has raised.
   */
  function DoPack(stamp: string, failed: Option<nat>): (r: Option<string>)
    ensures r.Some? <==> failed.None? || failed.value >= 2
    ensures r.Some? ==> r.value == PackFilename(stamp)
  {
    if Issued(PackCommands(stamp), failed).1 then Some(PackFilename(stamp)) else None
  }

  // --------------------------------------------------------------- do_deploy

  /** `s.split("/")[-1]`: the text after the last `/`, or all of `s` when it has none. */
  function AfterLastSlash(s: string): (r: string)
    ensures '/' !in r
    ensures |r| <= |s| && r == s[|s| - |r|..]
    ensures |r| < |s| ==> s[|s| - |r| - 1] == '/'
    ensures '/' !in s ==> r == s
  {
    if s == [] then []
    else if s[|s| - 1] == '/' then []
    else
      var init := s[..|s| - 1];
      var r := AfterLastSlash(init) + [s[|s| - 1]];
      assert init[|init| - |r| + 1..] + [s[|s| - 1]] == s[|s| - |r|..];
      r
  }

  /** `s.split(".")[0]`: the text before the first `.`, or all of `s` when it has none. */
  function BeforeFirstDot(s: string): (r: string)
    ensures '.' !in r
    ensures |r| <= |s| && r == s[..|r|]
    ensures |r| < |s| ==> s[|r|] == '.'
    ensures '.' !in s ==> r == s
  {
    if s == [] then []
    else if s[0] == '.' then []
    else
      var r := [s[0]] + BeforeFirstDot(s[1..]);
      assert s == [s[0]] + s[1..];
      r
  }

  /** The names `do_deploy` derives from an archive path. */
  datatype Paths = Paths(basename: string, archiveName: string, relPath: string, tmpPath: string)

  function DeployPaths(archivePath: string): (p: Paths)
    ensures '/' !in p.basename && '.' !in p.archiveName
    ensures p.relPath == "/data/web_static/releases/" + p.archiveName + "/"
    ensures p.tmpPath == "/tmp/" + p.basename
  {
    var basename := AfterLastSlash(archivePath);
    var archiveName := BeforeFirstDot(basename);
    Paths(basename, archiveName, "/data/web_static/releases/" + archiveName + "/", "/tmp/" + basename)
  }

  /** The link `do_deploy` points at the new release. */
  const CurrentLink := "/data/web_static/current"

  /** The commands `do_deploy` issues, in order, for an archive that exists. */
  function DeployCommands(archivePath: string): (cmds: seq<Command>)
    ensures |cmds| == 8
    ensures cmds[0] == Put(archivePath, "/tmp/")
    ensures cmds[7] == Run("ln -s " + DeployPaths(archivePath).relPath + " " + CurrentLink)
  {
    var p := DeployPaths(archivePath);
    [ Put(archivePath, "/tmp/"),
      Run("mkdir -p " + p.relPath),
      Run("tar -xzf " + p.tmpPath + " -C " + p.relPath),
      Run("rm " + p.tmpPath),
      Run("mv " + p.relPath + "web_static/* " + p.relPath),
      Run("rm -rf " + p.relPath + "web_static"),
      Run("rm -rf " + CurrentLink),
      Run("ln -s " + p.relPath + " " + CurrentLink) ]
  }

  /**
   * `do_deploy(archive_path)`, given whether the file exists and the number of
   * the command that raised, if any: the commands issued (up to and including
   * the one that raised) and the result.
   */
  function DoDeploy(archivePath: string, isFile: bool, failed: Option<nat>): (r: (seq<Command>, bool))
    ensures !isFile ==> r == ([], false)
    ensures isFile ==> r.0 <= DeployCommands(archivePath) && |r.0| > 0
    ensures r.1 ==> r.0 == DeployCommands(archivePath)
    ensures r.1 <==> isFile && (failed.None? || failed.value >= 8)
  {
    if isFile then Issued(DeployCommands(archivePath), failed) else ([], false)
  }

  /** Behind a path ending in `/`, a name without `/` is the basename. */
  lemma {:induction false} AfterLastSlashOf(dir: string, base: string)
    requires |dir| > 0 && dir[|dir| - 1] == '/' && '/' !in base
    ensures AfterLastSlash(dir + base) == base
    decreases |base|
  {
    var f := dir + base;
    if base == [] {
      assert f == dir;
    } else {
      var init := base[..|base| - 1];
      assert f[..|f| - 1] == dir + init;
      assert f[|f| - 1] == base[|base| - 1];
      AfterLastSlashOf(dir, init);
      assert init + [base[|base| - 1]] == base;
    }
  }

  /** A name without `.` followed by text starting with `.` is what precedes the first dot. */
  lemma {:induction false} BeforeFirstDotOf(name: string, ext: string)
    requires '.' !in name && |ext| > 0 && ext[0] == '.'
    ensures BeforeFirstDot(name + ext) == name
    decreases |name|
  {
    var f := name + ext;
    if name == [] {
      assert f == ext;
    } else {
      assert f[0] == name[0];
      assert f[1..] == name[1..] + ext;
      BeforeFirstDotOf(name[1..], ext);
      assert [name[0]] + name[1..] == name;
    }
  }

  /** The release directory of the archive packed at `stamp`. */
  function Release(stamp: string): string {
    "/data/web_static/releases/" + ("web_static_" + stamp) + "/"
  }

  /** The basename of a packed archive is `web_static_<stamp>.tgz`. */
  lemma PackBasename(stamp: string)
    requires '/' !in stamp
    ensures AfterLastSlash(PackFilename(stamp)) == "web_static_" + stamp + ".tgz"
  {
    var base := "web_static_" + stamp + ".tgz";
    assert PackFilename(stamp) == "versions/" + base;
    AfterLastSlashOf("versions/", base);
  }

  /** The archive name of `web_static_<stamp>.tgz` is `web_static_<stamp>`. */
  lemma PackArchiveName(stamp: string)
    requires '.' !in stamp
    ensures BeforeFirstDot("web_static_" + stamp + ".tgz") == "web_static_" + stamp
  {
    BeforeFirstDotOf("web_static_" + stamp, ".tgz");
  }

  /** The archive `do_pack` makes, deployed, becomes the release `web_static_<stamp>`. */
  lemma DeployPackedArchive(stamp: string)
    requires '.' !in stamp && '/' !in stamp
    ensures DeployPaths(PackFilename(stamp)).basename == "web_static_" + stamp + ".tgz"
    ensures DeployPaths(PackFilename(stamp)).archiveName == "web_static_" + stamp
    ensures DeployPaths(PackFilename(stamp)).relPath == Release(stamp)
  {
    PackBasename(stamp);
    PackArchiveName(stamp);
  }

  // ------------------------------------------------------------------ deploy

  /** `deploy()`: pack, then deploy the archive; a failed pack deploys nothing. */
  function Deploy(stamp: string, packFailed: Option<nat>, isFile: bool, deployFailed: Option<nat>): (r: (seq<Command>, bool))
    ensures DoPack(stamp, packFailed).None? ==> r == ([], false)
    ensures DoPack(stamp, packFailed).Some? ==> r == DoDeploy(PackFilename(stamp), isFile, deployFailed)
  {
    match DoPack(stamp, packFailed)
    case None => ([], false)
    case Some(path) => DoDeploy(path, isFile, deployFailed)
  }

  /** A successful deploy of a fresh pack links `current` to the new release. */
  lemma DeployLinksRelease(stamp: string, packFailed: Option<nat>, isFile: bool, deployFailed: Option<nat>)
    requires '.' !in stamp && '/' !in stamp
    ensures var (cmds, ok) := Deploy(stamp, packFailed, isFile, deployFailed);
      ok ==> |cmds| == 8 && cmds[7] == Run("ln -s " + Release(stamp) + " " + CurrentLink)
  {
    DeployPackedArchive(stamp);
  }

  // ---------------------------------------------------------------- do_clean

  /** `number if number >= 2 else 1`: how many archives `do_clean` keeps. */
  function KeepCount(number: int): (keep: nat)
    ensures keep >= 1
    ensures number >= 2 ==> keep == number
    ensures number < 2 ==> keep == 1
  {
    if number >= 2 then number else 1
  }

  /** The shell pipeline `do_clean` runs in `dir`: list newest first, drop the first `keep`, delete the rest. */
  function CleanCommand(dir: string, keep: nat): string {
    "cd " + dir + ";ls -t | tail -n +" + NatText(keep + 1) + " | xargs rm -rf"
  }

  /** The commands `do_clean(number)` issues: locally in `versions`, then on the server. */
  function CleanCommands(number: int): (cmds: seq<Command>)
    ensures |cmds| == 2
    ensures cmds[0] == Local(CleanCommand("versions", KeepCount(number)))
    ensures cmds[1] == Run(CleanCommand("/data/web_static/releases", KeepCount(number)))
  {
    [Local(CleanCommand("versions", KeepCount(number))), Run(CleanCommand("/data/web_static/releases", KeepCount(number)))]
  }

  /**
   * `do_clean(number)`, given the number of the command that raised, if any:
   * the commands issued. One `try` holds both, so a raising `local` means the
   * remote pruning is never run; the error itself is swallowed.
   */
  function DoClean(number: int, failed: Option<nat>): (r: seq<Command>)
    ensures r <= CleanCommands(number)
    ensures |r| >= 1 && r[0] == Local(CleanCommand("versions", KeepCount(number)))
    ensures |r| == 2 <==> failed != Some(0)
  {
    Issued(CleanCommands(number), failed).0
  }

  /** `tail -n +(keep + 1)` of a newest-first listing: what the pipeline deletes. */
  function Removed(listing: seq<string>, keep: nat): seq<string> {
    if keep <= |listing| then listing[keep..] else []
  }

  /** What is left of a newest-first listing after the pipeline has run. */
  function Survivors(listing: seq<string>, keep: nat): seq<string> {
    if keep <= |listing| then listing[..keep] else listing
  }

  /** The newest `keep` archives survive, everything older is deleted, and with any archive at all one survives. */
  lemma CleanKeepsNewest(listing: seq<string>, number: int)
    ensures var keep := KeepCount(number);
      && Survivors(listing, keep) + Removed(listing, keep) == listing
      && |Survivors(listing, keep)| == (if keep <= |listing| then keep else |listing|)
      && (|listing| > 0 ==> |Survivors(listing, keep)| >= 1 && listing[0] in Survivors(listing, keep))
      && (number <= 1 ==> |Removed(listing, keep)| == (if |listing| > 0 then |listing| - 1 else 0))
  {
    var keep := KeepCount(number);
    if keep <= |listing| {
      assert listing[..keep] + listing[keep..] == listing;
    }
  }
}
