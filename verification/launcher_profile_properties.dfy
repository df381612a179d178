/** Properties relating several calls of the launcher-profile resolvers, and worked
    examples of the path forms and of the network-path fallback. */
module LauncherProfileProperties {
  import opened Wrappers
  import opened JavaStrings
  import opened LauncherProfile

  /** Of the five path forms the comment on `isUncPath` lists, only the UNC form
      counts as a network path. A local extended-length path (`\\?\C:\foo`) starts
      with the same two backslashes, so it counts as one too. */
  lemma UncPathForms()
    ensures IsUncPath("\\\\server\\share\\foo")
    ensures IsUncPath("\\\\?\\C:\\foo")
    ensures !IsUncPath("C:\\foo")
    ensures !IsUncPath("foo")
    ensures !IsUncPath("\\foo")
    ensures !IsUncPath("C:foo")
  {
  }

  /** The fallback candidate of a UNC root is never a local path, so it can never
      coincide with a configured directory that the fallback applies to. */
  lemma FallbackNeverRepeatsGameDir(gameDir: string, gameRoot: string)
    requires FallbackApplies(gameDir, gameRoot)
    ensures SnapshotsFallback(gameRoot) != gameDir
    ensures IsUncPath(SnapshotsFallback(gameRoot)) && EndsWith(SnapshotsFallback(gameRoot), SnapshotsDirSuffix)
  {
  }

  /** The fallback replaces the configured directory exactly when all five gates
      hold, and its candidate is then the root's `_snapshots` sibling. */
  lemma FallbackIffAllGates(gameDir: string, gameRoot: string, valid: string -> bool)
    ensures ProfileCandidate(gameDir, gameRoot, valid) != gameDir
        <==> && !valid(gameDir)
             && IsUncPath(gameRoot)
             && !IsUncPath(gameDir)
             && EndsWith(gameDir, SnapshotsDirSuffix)
             && EndsWith(gameRoot, MinecraftDirSuffix)
    ensures ProfileCandidate(gameDir, gameRoot, valid) != gameDir ==>
              ProfileCandidate(gameDir, gameRoot, valid) == gameRoot + SnapshotsAppendix
  {
  }

  /** The default profile uses the installation root as its directory, and the first
      valid version of the stable-release channel. */
  lemma DefaultProfileResolution<V>(
    gameRoot: string,
    valid: string -> bool,
    createVersionDirectory: string -> V,
    validVersion: V -> bool,
    findFirstValid: seq<ReleaseType> -> Option<V>)
    ensures ResolveProfileDirectory(NewProfile(), gameRoot, valid) == Ok(ProfileDirectory(gameRoot))
    ensures findFirstValid([Release]).Some? ==>
              ResolveVersionDirectory(NewProfile(), createVersionDirectory, validVersion, findFirstValid)
                == Ok(findFirstValid([Release]).value)
    ensures findFirstValid([Release]).None? ==>
              ResolveVersionDirectory(NewProfile(), createVersionDirectory, validVersion, findFirstValid).Err?
  {
  }

  /** Without a configured game directory no validity check is made: the result
      does not depend on the oracle. */
  lemma RootIsNotValidated(profile: Profile, gameRoot: string, valid1: string -> bool, valid2: string -> bool)
    requires profile.gameDir.None?
    ensures ResolveProfileDirectory(profile, gameRoot, valid1) == ResolveProfileDirectory(profile, gameRoot, valid2)
  {
  }

  /** An explicit version id is never replaced by a scan of the release types: the
      result does not depend on what the scan would find. */
  lemma ExplicitVersionIgnoresScan<V>(
    profile: Profile,
    createVersionDirectory: string -> V,
    valid: V -> bool,
    findFirstValid1: seq<ReleaseType> -> Option<V>,
    findFirstValid2: seq<ReleaseType> -> Option<V>)
    requires profile.lastVersionId.Some?
    ensures ResolveVersionDirectory(profile, createVersionDirectory, valid, findFirstValid1)
         == ResolveVersionDirectory(profile, createVersionDirectory, valid, findFirstValid2)
  {
  }

  /** Provided the scan for the profile's own release types finds only a valid
      directory, every version directory the resolver returns is valid. */
  lemma ResolvedVersionIsValid<V>(
    profile: Profile,
    createVersionDirectory: string -> V,
    valid: V -> bool,
    findFirstValid: seq<ReleaseType> -> Option<V>)
    requires findFirstValid(profile.allowedReleaseTypes).Some? ==>
               valid(findFirstValid(profile.allowedReleaseTypes).value)
    ensures ResolveVersionDirectory(profile, createVersionDirectory, valid, findFirstValid).Ok? ==>
              valid(ResolveVersionDirectory(profile, createVersionDirectory, valid, findFirstValid).value)
  {
  }

  /** A network root with a stale local snapshots directory: the root's sibling is tried. */
  lemma FallbackExample(gameDir: string, gameRoot: string, valid: string -> bool)
    requires gameDir == "C:\\Users\\x\\.minecraft_snapshots"
    requires gameRoot == "\\\\server\\share\\.minecraft"
    requires !valid(gameDir)
    ensures ProfileCandidate(gameDir, gameRoot, valid) == "\\\\server\\share\\.minecraft_snapshots"
  {
    ExampleGatesHold(gameDir, gameRoot);
    ExampleSiblingPath(gameRoot);
  }

  /** The gates of the example: a local snapshots directory and a network root. */
  lemma ExampleGatesHold(gameDir: string, gameRoot: string)
    requires gameDir == "C:\\Users\\x\\.minecraft_snapshots"
    requires gameRoot == "\\\\server\\share\\.minecraft"
    ensures FallbackApplies(gameDir, gameRoot)
  {
    assert IsUncPath(gameRoot) && !IsUncPath(gameDir);
    assert gameDir[|gameDir| - |SnapshotsDirSuffix|..] == SnapshotsDirSuffix;
    assert gameRoot[|gameRoot| - |MinecraftDirSuffix|..] == MinecraftDirSuffix;
  }

  /** The snapshots sibling of the example's network root. */
  lemma ExampleSiblingPath(gameRoot: string)
    requires gameRoot == "\\\\server\\share\\.minecraft"
    ensures gameRoot + SnapshotsAppendix == "\\\\server\\share\\.minecraft_snapshots"
  {
  }

  // Each of the next four lemmas breaks exactly one gate of the example above;
  // whatever the oracle says, the configured directory stays the candidate.

  /** The root is a local path. */
  lemma LocalRootKeepsGameDir(gameDir: string, gameRoot: string, valid: string -> bool)
    requires gameDir == "C:\\Users\\x\\.minecraft_snapshots"
    requires gameRoot == "D:\\share\\.minecraft"
    ensures ProfileCandidate(gameDir, gameRoot, valid) == gameDir
  {
    assert !IsUncPath(gameRoot);
  }

  /** The configured directory is itself a network path. */
  lemma UncGameDirIsKept(gameDir: string, gameRoot: string, valid: string -> bool)
    requires gameDir == "\\\\pc\\Users\\x\\.minecraft_snapshots"
    requires gameRoot == "\\\\server\\share\\.minecraft"
    ensures ProfileCandidate(gameDir, gameRoot, valid) == gameDir
  {
    assert IsUncPath(gameDir);
  }

  /** The configured directory is not a `.minecraft_snapshots` directory. */
  lemma NonSnapshotsGameDirIsKept(gameDir: string, gameRoot: string, valid: string -> bool)
    requires gameDir == "C:\\Users\\x\\snapshots"
    requires gameRoot == "\\\\server\\share\\.minecraft"
    ensures ProfileCandidate(gameDir, gameRoot, valid) == gameDir
  {
    assert gameDir[|gameDir| - |SnapshotsDirSuffix|] != SnapshotsDirSuffix[0];
    assert !EndsWith(gameDir, SnapshotsDirSuffix);
  }

  /** The root is not a `.minecraft` directory. */
  lemma NonMinecraftRootKeepsGameDir(gameDir: string, gameRoot: string, valid: string -> bool)
    requires gameDir == "C:\\Users\\x\\.minecraft_snapshots"
    requires gameRoot == "\\\\server\\share\\games"
    ensures ProfileCandidate(gameDir, gameRoot, valid) == gameDir
  {
    assert gameRoot[|gameRoot| - 1] != MinecraftDirSuffix[|MinecraftDirSuffix| - 1];
    assert !EndsWith(gameRoot, MinecraftDirSuffix);
  }
}
