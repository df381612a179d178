/** One profile of the Minecraft launcher's `launcher_profiles.json`, and the two
    procedures that turn it into a validated profile directory (the game's working
    directory) and a validated version directory (the files of one game version).

    The filesystem is not modelled: whether a directory "is valid" is an oracle
    passed in by the caller, and so are the installation root and the version
    lookups that the surrounding API performs. */
module LauncherProfile {
  import opened Wrappers
  import opened JavaStrings

  /** The release channels the launcher's version list distinguishes. */
  datatype ReleaseType = Snapshot | Release | OldBeta | OldAlpha

  /** A launcher profile as read from the configuration file. A key that the file
      leaves out keeps its default (see `NewProfile`); `None` is the model of a
      field that stays `null`. */
  datatype Profile = Profile(
    name: string,
    lastVersionId: Option<string>,
    gameDir: Option<string>,
    allowedReleaseTypes: seq<ReleaseType>)

  /** A profile directory: the game's working directory, given by its raw path. */
  datatype ProfileDirectory = ProfileDirectory(path: string)

  /** The one error kind: no valid directory could be determined. */
  datatype NotFound = NotFound(message: string)

  /** The network-path prefix: two backslash characters. */
  const UncPrefix: string := "\\\\"

  /** Suffix of the main installation directory. */
  const MinecraftDirSuffix: string := ".minecraft"

  /** What the fallback appends to the installation root. */
  const SnapshotsAppendix: string := "_snapshots"

  /** Suffix of the directory that holds the snapshot profiles, `.minecraft_snapshots`:
      the main directory's name with the appendix. */
  const SnapshotsDirSuffix: string := MinecraftDirSuffix + SnapshotsAppendix

  /** A profile as the configuration reader creates it before filling in the keys
      present in the file. A profile with no keys at all (the launcher's
      "(Default)" entry) keeps these values: an empty name and the latest stable
      release. */
  function NewProfile(): (p: Profile)
    ensures p.gameDir.None? && p.lastVersionId.None?
    ensures |p.name| == 0
    ensures p.allowedReleaseTypes == [Release]
  {
    Profile("", None, None, [Release])
  }

  /** A UNC ("network") path such as `\\server\share\foo`, as opposed to absolute
      (`C:\foo`), relative (`foo`), directory-relative (`\foo`) or drive-relative
      (`C:foo`) paths. */
  function IsUncPath(path: string): (unc: bool)
    ensures unc <==> |path| >= 2 && path[0] == '\\' && path[1] == '\\'
  {
    StartsWith(path, UncPrefix)
  }

  /** The local configured directory is a snapshots directory and the installation
      root is a main `.minecraft` directory, so the former is presumably the
      latter's sibling. */
  predicate IsSnapshotsSibling(gameDir: string, gameRoot: string)
  {
    EndsWith(gameDir, SnapshotsDirSuffix) && EndsWith(gameRoot, MinecraftDirSuffix)
  }

  /** The gates of the network-path fallback: the installation root was given as a
      network path, the configured directory is not one, and the two look like
      sibling `.minecraft` / `.minecraft_snapshots` directories. */
  function FallbackApplies(gameDir: string, gameRoot: string): (applies: bool)
    ensures applies <==>
              && UncPrefix <= gameRoot
              && !(UncPrefix <= gameDir)
              && |SnapshotsDirSuffix| <= |gameDir|
              && gameDir[|gameDir| - |SnapshotsDirSuffix|..] == SnapshotsDirSuffix
              && |MinecraftDirSuffix| <= |gameRoot|
              && gameRoot[|gameRoot| - |MinecraftDirSuffix|..] == MinecraftDirSuffix
  {
    IsUncPath(gameRoot) && IsSnapshotsSibling(gameDir, gameRoot) && !IsUncPath(gameDir)
  }

  /** The fallback candidate: the snapshots sibling of the installation root,
      reached through the same network share. Nothing of the configured directory
      is carried over. */
  function SnapshotsFallback(gameRoot: string): (candidate: string)
    ensures |candidate| == |gameRoot| + |SnapshotsAppendix|
    ensures gameRoot <= candidate
    ensures candidate[|gameRoot|..] == SnapshotsAppendix
    ensures IsUncPath(gameRoot) ==> IsUncPath(candidate)
    ensures EndsWith(gameRoot, MinecraftDirSuffix) ==> EndsWith(candidate, SnapshotsDirSuffix)
  {
    gameRoot + SnapshotsAppendix
  }

  /** The directory that is validated for the final time when a game directory is
      configured: the configured one, unless it is invalid and all fallback gates
      hold, in which case the root's snapshots sibling replaces it. */
  function ProfileCandidate(gameDir: string, gameRoot: string, valid: string -> bool): (candidate: string)
    ensures valid(gameDir) ==> candidate == gameDir
    ensures || candidate == gameDir
            || (&& candidate == gameRoot + SnapshotsAppendix
                && !valid(gameDir)
                && FallbackApplies(gameDir, gameRoot))
    ensures candidate != gameDir <==> !valid(gameDir) && FallbackApplies(gameDir, gameRoot)
  {
    if valid(gameDir) then
      gameDir
    else if FallbackApplies(gameDir, gameRoot) then
      // the fallback is a network path and the configured directory is not,
      // so the replacement always differs from the original
      // (LauncherProfileProperties.FallbackNeverRepeatsGameDir)
      SnapshotsFallback(gameRoot)
    else
      gameDir
  }

  /** The message of the error raised when no valid profile directory is found. */
  function ProfileNotFoundMessage(name: string, gameDir: string): (message: string)
    ensures Contains(message, name)
    ensures EndsWith(message, gameDir)
  {
    var head := "cannot find valid profile directory for launcher profile '";
    ContainsInfix(head, name, "': " + gameDir);
    assert head + name + ("': " + gameDir) == head + name + "': " + gameDir;
    EndsWithConcat(head + name + "': ", gameDir);
    head + name + "': " + gameDir
  }

  /** The message of the error raised when no valid version directory is found. */
  function VersionNotFoundMessage(name: string): (message: string)
    ensures Contains(message, name)
  {
    var head := "cannot find valid version directory for launcher profile '";
    ContainsInfix(head, name, "'");
    head + name + "'"
  }

  /** Resolves the profile's working directory. Without a configured game directory
      it is the installation root `gameRoot`, taken as it is. Otherwise the
      configured directory, or its network-path fallback, must satisfy `valid`. */
  function ResolveProfileDirectory(profile: Profile, gameRoot: string, valid: string -> bool)
    : (r: Result<ProfileDirectory, NotFound>)
    ensures profile.gameDir.None? ==> r == Ok(ProfileDirectory(gameRoot))
    ensures profile.gameDir.Some? && valid(profile.gameDir.value) ==>
              r == Ok(ProfileDirectory(profile.gameDir.value))
    ensures profile.gameDir.Some? && r.Ok? ==> valid(r.value.path)
    ensures profile.gameDir.Some? && r.Ok? ==>
              || r.value.path == profile.gameDir.value
              || (&& r.value.path == gameRoot + SnapshotsAppendix
                  && FallbackApplies(profile.gameDir.value, gameRoot))
    ensures r.Err?
        <==> && profile.gameDir.Some?
             && !valid(profile.gameDir.value)
             && !(FallbackApplies(profile.gameDir.value, gameRoot)
                  && valid(gameRoot + SnapshotsAppendix))
    ensures r.Err? ==> Contains(r.error.message, profile.name)
    ensures r.Err? ==> EndsWith(r.error.message, profile.gameDir.value)
  {
    match profile.gameDir
    case None =>
      Ok(ProfileDirectory(gameRoot))
    case Some(gameDir) =>
      var candidate := ProfileCandidate(gameDir, gameRoot, valid);
      if valid(candidate) then
        Ok(ProfileDirectory(candidate))
      else
        Err(NotFound(ProfileNotFoundMessage(profile.name, gameDir)))
  }

  /** Resolves the directory of the game version the profile uses. An explicit
      `lastVersionId` is looked up with `createVersionDirectory` and must satisfy
      `valid`; there is no other attempt. Without one, the result is whatever
      `findFirstValid` finds for the profile's allowed release types. */
  function ResolveVersionDirectory<V>(
    profile: Profile,
    createVersionDirectory: string -> V,
    valid: V -> bool,
    findFirstValid: seq<ReleaseType> -> Option<V>)
    : (r: Result<V, NotFound>)
    ensures profile.lastVersionId.Some? ==>
              && (r.Ok? <==> valid(createVersionDirectory(profile.lastVersionId.value)))
              && (r.Ok? ==> r.value == createVersionDirectory(profile.lastVersionId.value))
    ensures profile.lastVersionId.None? ==>
              && (r.Ok? <==> findFirstValid(profile.allowedReleaseTypes).Some?)
              && (r.Ok? ==> r.value == findFirstValid(profile.allowedReleaseTypes).value)
    ensures r.Err? ==> Contains(r.error.message, profile.name)
  {
    match profile.lastVersionId
    case Some(id) =>
      var result := createVersionDirectory(id);
      if valid(result) then Ok(result)
      else Err(NotFound(VersionNotFoundMessage(profile.name)))
    case None =>
      match findFirstValid(profile.allowedReleaseTypes)
      case Some(result) => Ok(result)
      case None => Err(NotFound(VersionNotFoundMessage(profile.name)))
  }
}
