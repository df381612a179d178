# Launcher profile resolution (Amidst)

Amidst reads the Minecraft launcher's `launcher_profiles.json`. Each profile there
has a name, an optional game directory (`gameDir`), an optional version id
(`lastVersionId`) and the release types it accepts. This project models how
`LauncherProfileJson` turns one such profile into two directories:

- a **valid profile directory**, the game's working directory. Without a
  configured `gameDir` this is the installation root. Otherwise it is the
  configured directory. When that is invalid, one narrow network-path fallback is
  tried: the installation root's `_snapshots` sibling.
- a **valid version directory**. An explicit `lastVersionId` is looked up and
  must be valid. Without one, the version list is scanned for the profile's
  allowed release types.

Each procedure fails with a `NotFound` error otherwise. The Java code throws a
`FileNotFoundException`.

The filesystem and the surrounding API are parameters of the model:

- `valid: string -> bool` stands for `ProfileDirectory.isValid()` on the
  directory at a path;
- `gameRoot: string` is the path of the installation root
  (`getDotMinecraftDirectory().getRoot()`);
- `createVersionDirectory: string -> V` and `valid: V -> bool` stand for
  `MojangApi.createVersionDirectory` and `VersionDirectory.isValid()`;
- `findFirstValid: seq<ReleaseType> -> Option<V>` stands for
  `VersionListJson.tryFindFirstValidVersionDirectory`. `None` is its `null`.

Files:

- `wrappers.dfy`: `Option` (Java `null`) and `Result` (a return value or a thrown exception).
- `java_strings.dfy`: `startsWith`/`endsWith` as `java.lang.String` defines them, over sequences of characters (Unicode scalar values), proved equal to sequence prefix/suffix tests, plus a `Contains` predicate for error messages.
- `launcher_profile.dfy`: the profile record, its defaults, `IsUncPath`, the fallback gates and both resolvers.
- `launcher_profile_properties.dfy`: lemmas relating several calls, and worked examples.

## Model

| member | source | states |
|---|---|---|
| JavaStrings.StartsWith | src/main/java/amidst/mojangapi/file/json/launcherprofiles/LauncherProfileJson.java:47 | The character-by-character `startsWith` holds exactly when the prefix is a prefix of the string. A prefix longer than the string never matches. |
| JavaStrings.EndsWith | src/main/java/amidst/mojangapi/file/json/launcherprofiles/LauncherProfileJson.java:77 | `endsWith` holds exactly when the suffix fits in the string and equals its last characters. |
| LauncherProfile.NewProfile | src/main/java/amidst/mojangapi/file/json/launcherprofiles/LauncherProfileJson.java:20-35 | A fresh profile has an empty name, no game directory, no version id, and allows exactly `[Release]`. |
| LauncherProfile.IsUncPath | src/main/java/amidst/mojangapi/file/json/launcherprofiles/LauncherProfileJson.java:41-48 | A path is a UNC path exactly when its first two characters are both backslashes. |
| LauncherProfile.FallbackApplies | src/main/java/amidst/mojangapi/file/json/launcherprofiles/LauncherProfileJson.java:75-77 | The fallback gates hold exactly when all four hold, stated on the characters: the root starts with two backslashes, the configured directory does not, the last 20 characters of the configured directory are `.minecraft_snapshots`, and the last 10 characters of the root are `.minecraft`. |
| LauncherProfile.SnapshotsFallback | src/main/java/amidst/mojangapi/file/json/launcherprofiles/LauncherProfileJson.java:99-100 | The fallback candidate is the root as its prefix, followed by exactly the 10 characters `_snapshots`. It is a UNC path when the root is one. It ends with `.minecraft_snapshots` when the root ends with `.minecraft`. |
| LauncherProfile.ProfileCandidate | src/main/java/amidst/mojangapi/file/json/launcherprofiles/LauncherProfileJson.java:69-103 | A valid configured directory is kept. The candidate is either the configured directory or, when the configured directory is invalid and the fallback gates hold, root + `_snapshots`. It differs from the configured directory exactly when the configured directory is invalid and the gates hold. |
| LauncherProfile.ProfileNotFoundMessage | src/main/java/amidst/mojangapi/file/json/launcherprofiles/LauncherProfileJson.java:108-110 | The profile-directory error message contains the profile name verbatim and ends with the configured game directory verbatim. |
| LauncherProfile.VersionNotFoundMessage | src/main/java/amidst/mojangapi/file/json/launcherprofiles/LauncherProfileJson.java:136-138 | The version-directory error message contains the profile name verbatim. |
| LauncherProfile.ResolveProfileDirectory | src/main/java/amidst/mojangapi/file/json/launcherprofiles/LauncherProfileJson.java:66-116 | Without a game directory the result is the root, unconditionally. A valid game directory is returned as it is. Any directory returned for a configured game directory is valid, and it is either that directory or root + `_snapshots` with every fallback gate holding. It fails exactly when neither the configured directory nor a gated fallback is valid. The error names the profile and ends with the configured directory. |
| LauncherProfile.ResolveVersionDirectory | src/main/java/amidst/mojangapi/file/json/launcherprofiles/LauncherProfileJson.java:118-139 | With an explicit id, it succeeds exactly when the directory built for that id is valid, and then it returns that directory. Without one, it succeeds exactly when the scan for the profile's own release types finds something, and then it returns the scan's result. The error names the profile. |
| LauncherProfileProperties.UncPathForms | src/main/java/amidst/mojangapi/file/json/launcherprofiles/LauncherProfileJson.java:41-47 | Of the five path forms listed in the source (`\\server\share\foo`, `C:\foo`, `foo`, `\foo`, `C:foo`), only the first is a UNC path. A local extended-length path `\\?\C:\foo` also counts as UNC, since it starts with two backslashes. |
| LauncherProfileProperties.FallbackNeverRepeatsGameDir | src/main/java/amidst/mojangapi/file/json/launcherprofiles/LauncherProfileJson.java:75-100 | When the gates hold, the fallback candidate is a UNC `.minecraft_snapshots` path that differs from the configured local directory. |
| LauncherProfileProperties.DefaultProfileResolution | src/main/java/amidst/mojangapi/file/json/launcherprofiles/LauncherProfileJson.java:20-35 | A default profile resolves to the installation root. It resolves to the first valid stable release, and fails when there is none. |
| LauncherProfileProperties.RootIsNotValidated | src/main/java/amidst/mojangapi/file/json/launcherprofiles/LauncherProfileJson.java:112-115 | Without a game directory the result does not depend on the validity oracle. |
| LauncherProfileProperties.ExplicitVersionIgnoresScan | src/main/java/amidst/mojangapi/file/json/launcherprofiles/LauncherProfileJson.java:122-127 | With an explicit version id the result does not depend on what the release-type scan would find. |
| LauncherProfileProperties.ResolvedVersionIsValid | src/main/java/amidst/mojangapi/file/json/launcherprofiles/LauncherProfileJson.java:118-139 | If the scan for the profile's own release types finds only a valid directory, every version directory returned is valid. |
| LauncherProfileProperties.FallbackExample | src/main/java/amidst/mojangapi/file/json/launcherprofiles/LauncherProfileJson.java:73-100 | Take the root `\\server\share\.minecraft` and the invalid `C:\Users\x\.minecraft_snapshots`. The candidate is `\\server\share\.minecraft_snapshots`. |
| LauncherProfileProperties.FallbackIffAllGates | src/main/java/amidst/mojangapi/file/json/launcherprofiles/LauncherProfileJson.java:73-100 | The candidate differs from the configured directory exactly when all five gates hold: the configured directory is invalid, the root is UNC, the configured directory is not UNC, it ends with `.minecraft_snapshots`, and the root ends with `.minecraft`. The replacement is then root + `_snapshots`, with nothing of the configured directory carried over. |
| LauncherProfileProperties.LocalRootKeepsGameDir | src/main/java/amidst/mojangapi/file/json/launcherprofiles/LauncherProfileJson.java:75 | With a local root (`D:\share\.minecraft`), the configured `C:\Users\x\.minecraft_snapshots` stays the candidate, whatever the validity oracle says. |
| LauncherProfileProperties.UncGameDirIsKept | src/main/java/amidst/mojangapi/file/json/launcherprofiles/LauncherProfileJson.java:77 | When the configured directory is itself a UNC path (`\\pc\Users\x\.minecraft_snapshots`), it stays the candidate even under a UNC `.minecraft` root. |
| LauncherProfileProperties.NonSnapshotsGameDirIsKept | src/main/java/amidst/mojangapi/file/json/launcherprofiles/LauncherProfileJson.java:77 | A configured directory not ending in `.minecraft_snapshots` (`C:\Users\x\snapshots`) stays the candidate under a UNC `.minecraft` root. |
| LauncherProfileProperties.NonMinecraftRootKeepsGameDir | src/main/java/amidst/mojangapi/file/json/launcherprofiles/LauncherProfileJson.java:77 | A UNC root not ending in `.minecraft` (`\\server\share\games`) leaves the configured `.minecraft_snapshots` directory as the candidate. |

## Behaviour worth noting

- `createValidVersionDirectory` hands the whole `allowedReleaseTypes` list to `tryFindFirstValidVersionDirectory` (LauncherProfileJson.java:129-131). It does not walk the release types itself. The model takes that scan as a parameter.
- A directory the scan finds is returned without another `isValid()` (LauncherProfileJson.java:132-133). Its validity is therefore stated only under the scan's own contract, in `ResolvedVersionIsValid`.

## Left out

- Filesystem validity. `ProfileDirectory.isValid` and `VersionDirectory.isValid` are not part of this model. They are oracle parameters. Validity is assumed not to change during one call: the source checks the configured directory twice (lines 73 and 105) unless the fallback replaces it, and the model uses one answer of the oracle for both checks. The contract that a valid configured directory is returned as it is rests on this assumption.
- `java.io.File` construction and path normalisation. A path is its raw string, so `new File(gameRoot + "_snapshots")` is plain concatenation.
- The internals of `MojangApi`, `DotMinecraftDirectory` and `VersionListJson.tryFindFirstValidVersionDirectory`. They are not part of this model. The root path and the scan are parameters, and the root is read once per call. Nothing is claimed about the order of candidates inside the scan. `mojangApi.getVersionList()` is called at line 121, before the branch on `lastVersionId`, and its failures are not modelled. So `ExplicitVersionIgnoresScan` means that the scan's result is never used, not that the version list is never fetched.
- `ReleaseType.java` is not part of this model. `ReleaseType` lists the launcher's four release channels, and only `Release` (the default) matters here.
- The `Log.i` message of the fallback attempt (line 99). It is a side effect that does not affect control flow.
- `volatile` fields, Gson deserialisation and the Gson constructor. The profile is an immutable datatype. A JSON file that sets `name` or `allowedReleaseTypes` to `null` is not modelled: both fields always hold a value.
- The getters `getName`, `getLastVersionId` and `getGameDir`. They are the datatype's fields `name`, `lastVersionId` and `gameDir`.
- Java strings holding unpaired UTF-16 surrogates (for example from a `\uD800` escape in the JSON file) are not modelled. A Dafny `char` is a Unicode scalar value. Lengths, such as those in `SnapshotsFallback`'s contract, count characters rather than UTF-16 code units.
- Idempotence of the two resolvers needs no lemma. They are pure functions of the profile and the oracles, so equal inputs give equal results.
