# run_spec2k6_auto, modelled in Dafny

`run_spec2k6_auto.py` runs a SPEC CPU2006 benchmark on a RISC-V core loaded
into a VCU118 FPGA board. An ini file names the bitstream and the boot
artifacts: U-Boot SPL, U-Boot ITB, kernel, device tree and root filesystem.
The script stages them in a per-machine folder `symlink_dir_<machine>`:

- the bitstream and the four boot images become symbolic links there, the
  bitstream always under the name `design-vcu118.bit`;
- the root filesystem image is copied there;
- a destination that is already in place is left alone. "In place" is
  decided by comparing the first token of `md5sum`'s output for the source
  and for the destination.

The script then builds the command line for the board runner
`pro_fpga_run_linux.py` and starts it.

The model has seven modules.

- `Wrappers`: `Option` and `Result`.
- `PyStr`: the parts of Python's `str.split`, `str.format` and `str()` the
  script uses.
- `PosixPath`: `os.path.basename`, `os.path.normpath` and `os.path.abspath`
  on absolute working directories.
- `FileSystem`: a flat map from path to entry. An entry is a regular file
  with its bytes or a symbolic link with its target. Symbolic links are
  followed up to Linux's limit of 40. The module models
  `os.path.exists`/`isfile`, `os.path.samefile` and `shutil.copyfile`.
- `Md5`: `md5sum`'s standard output and `compare_two_files`. The hash
  function itself is a parameter of type `Hasher`.
- `Staging`: the reconciliation that `create_symlink` and
  `copy_neccessary_file` perform, written as functions on the filesystem
  map. It also holds the `preparation_handler` class
  (`Staging.PreparationHandler`). The class's methods update its path fields
  and its filesystem in place, and are proved against those functions. The
  main results are:
  - one run from a filesystem meeting the stated conditions stages
    everything;
  - a second run changes nothing;
  - each link step touches only its destination;
  - the copy touches its destination and, when that is a dangling link,
    the file the link leads to;
  - a whole run touches only the six destinations and that file.
- `Runner`: `is_file_exist`, the target name, `get_machine_name`, the
  command `run_spec2k6` builds, and the main block.
  - The command is modelled as a list of options (`Opt`) rendered to words.
  - Reading the words back with the runner's option kinds gives the same
    options.
  - Each flag's value is the one the runner sees.
  - The trailing switches follow the two flags exactly.

## Model

| member | source | states |
|---|---|---|
| PyStr.Split | run_spec2k6_auto.py:82 | `str.split(sep)` yields at least one part, no part holds `sep`, and the first part is the prefix of the string up to the first `sep` or the end |
| PyStr.FirstToken | run_spec2k6_auto.py:82-83 | `s.split(sep)[0]` holds no `sep`, is a prefix of `s`, and is followed in `s` by `sep` unless it is all of `s` |
| PyStr.JoinSplit | run_spec2k6_auto.py:82 | joining the parts of a split with the separator gives back the string |
| PyStr.SplitNoSep | run_spec2k6_auto.py:284 | a string without the separator splits into itself alone |
| PyStr.SplitAfterSep | run_spec2k6_auto.py:284 | splitting `a + sep + b`, with `a` free of `sep`, gives `a` followed by the parts of `b` |
| PyStr.SplitJoin | run_spec2k6_auto.py:82 | splitting a join of separator-free parts gives back the parts |
| PyStr.FirstTokenOfPrefix | run_spec2k6_auto.py:284-285 | the first token of `a + sep + b` is `a` when `a` holds no `sep` |
| PyStr.NatToDecimal | run_spec2k6_auto.py:267 | `str(n)` of a natural number is a non-empty digit string without a leading zero unless it is `"0"` |
| PyStr.DecimalRoundTrip | run_spec2k6_auto.py:267 | reading back the decimal digits of `str(n)` gives `n` |
| PyStr.IntToDecimal | run_spec2k6_auto.py:267 | `str(i)` is non-empty, starts with `-` exactly when `i` is negative, and is digits after the sign |
| PyStr.IntRoundTrip | run_spec2k6_auto.py:267 | `int(str(i)) == i` for every integer, so the runner reads back the iteration count it was given |
| PosixPath.Basename | run_spec2k6_auto.py:215 | `os.path.basename` never contains `/` |
| PosixPath.BasenameIsLastComponent | run_spec2k6_auto.py:220 | the base name is a suffix of the path and is preceded by `/` unless it is the whole path |
| PosixPath.BasenameOfChild | run_spec2k6_auto.py:221 | the base name of `dir + "/" + name` is `name` for a name without `/` |
| PosixPath.JoinPath | run_spec2k6_auto.py:174 | `os.path.join` with an absolute part is absolute |
| PosixPath.Normpath | run_spec2k6_auto.py:174 | `os.path.normpath` of an absolute path is absolute |
| PosixPath.Abspath | run_spec2k6_auto.py:174 | `os.path.abspath` against an absolute working directory is absolute |
| PosixPath.WalkKeepsClean | run_spec2k6_auto.py:174 | resolving `.`, `..` and empty components leaves only ordinary components |
| PosixPath.WalkOfClean | run_spec2k6_auto.py:174 | ordinary components are kept as they are |
| PosixPath.SplitJoinClean | run_spec2k6_auto.py:174 | ordinary components joined with `/` split back into themselves |
| PosixPath.JoinCleanHead | run_spec2k6_auto.py:174 | a join of ordinary components starts with the first component's first character |
| PosixPath.SplitAfterSlash | run_spec2k6_auto.py:174 | splitting `"/" + x` on `/` gives an empty part, then the parts of `x` |
| PosixPath.WalkSkipsEmpty | run_spec2k6_auto.py:174 | an empty component does not change the resolved path |
| PosixPath.WalkJoinClean | run_spec2k6_auto.py:174 | normalising a join of ordinary components gives them back |
| PosixPath.NormComponentsOfNormal | run_spec2k6_auto.py:176 | the components of a normalised path are the ones it was built from |
| PosixPath.LeadingSlashesOfNormal | run_spec2k6_auto.py:176 | a normalised path keeps its one or two leading slashes |
| PosixPath.NormpathShape | run_spec2k6_auto.py:176 | an absolute path normalises to one or two slashes and ordinary components |
| PosixPath.NormpathIdempotent | run_spec2k6_auto.py:176 | normalising twice is normalising once |
| PosixPath.AbspathIdempotent | run_spec2k6_auto.py:174-176 | `abspath(abspath(p)) == abspath(p)`, so the folder built from `abspath(self.dir)` is the one built from `abspath(path)` |
| FileSystem.DirPrefix | run_spec2k6_auto.py:206 | the directory part of a path is a prefix of it, ends in `/` unless empty, and no `/` follows it in the path |
| FileSystem.DirPrefixOfChild | run_spec2k6_auto.py:216-217 | a link placed at `folder + "/" + name` has `folder + "/"` as its directory part, which a relative target is read from |
| FileSystem.Resolve | run_spec2k6_auto.py:206 | where a link leads: an absolute target as it is stored, a relative one appended to the directory part of the link's own path, as Linux reads the target `os.symlink` stored |
| FileSystem.ResolveShape | run_spec2k6_auto.py:206 | the path a link leads to ends in its target, is the target itself when that is absolute, and is absolute whenever the link's own path is |
| FileSystem.Final | run_spec2k6_auto.py:71 | following symbolic links, each relative target read from its link's directory, ends at a regular file or at a free path, and a path that is itself one of those is its own end |
| FileSystem.Content | run_spec2k6_auto.py:244 | a readable path is present, and a regular file reads its own bytes |
| FileSystem.Exists | run_spec2k6_auto.py:71 | `os.path.exists`, and `isfile` at line 180 and `osp.exists` at line 244: following links from the path reaches a regular file, and then the path itself is present |
| FileSystem.SameFile | run_spec2k6_auto.py:245 | the check `shutil.copyfile` makes before copying: both paths exist and their links lead to the same regular file |
| FileSystem.CopyFile | run_spec2k6_auto.py:245 | `shutil.copyfile` succeeds exactly when the paths are not the same file, the source is readable and the destination resolves; on failure nothing changes; on success the destination reads the source's bytes, the source is unchanged, and only the destination's final target is written |
| FileSystem.WriteThrough | run_spec2k6_auto.py:245 | writing a file at the end of a link chain makes the chain's head read those bytes |
| FileSystem.FinalUnchangedByNonLink | run_spec2k6_auto.py:245 | replacing a chain end that a path does not reach leaves that path's resolution alone |
| FileSystem.ContentUnchangedByNonLink | run_spec2k6_auto.py:245 | the same write leaves what that path reads alone |
| FileSystem.FinalAvoids | run_spec2k6_auto.py:249-250 | changing or removing a path no link points at leaves every other path resolving as before |
| FileSystem.ContentAvoids | run_spec2k6_auto.py:249-250 | the same change leaves what every other path reads alone |
| Md5.Md5sumStdout | run_spec2k6_auto.py:78-80 | what `md5sum p` prints on standard output: nothing exactly when `p` cannot be read, and otherwise the digest, two spaces, the name and a newline, so more than the 32 hex digits and ending in a newline |
| Md5.DigestToken | run_spec2k6_auto.py:78-83 | the first token of `md5sum p` is empty exactly when `p` cannot be read |
| Md5.HexHasNoSpace | run_spec2k6_auto.py:82 | an md5 hex digest holds no space |
| Md5.FirstTokenOfMd5sum | run_spec2k6_auto.py:78-83 | splitting `md5sum`'s output on spaces yields the digest first, or `""` when nothing was printed |
| Md5.SameDigest | run_spec2k6_auto.py:92 | the test `compare_two_files` makes: the two paths' digest tokens are equal |
| Md5.CompareTwoFiles | run_spec2k6_auto.py:77-95 | `compare_two_files` is true exactly when the two paths' digest tokens are equal |
| Md5.CompareSymmetric | run_spec2k6_auto.py:77-95 | the comparison does not depend on the order of its arguments |
| Md5.CompareMeaning | run_spec2k6_auto.py:77-95 | true exactly when neither path is readable, or both are and their contents hash alike |
| Md5.ReadableNeverMatchesUnreadable | run_spec2k6_auto.py:81-83 | a readable path never compares equal to a missing path or a dangling link |
| Md5.SameContentCompares | run_spec2k6_auto.py:92-93 | paths that read the same bytes compare equal |
| Md5.CompareImpliesSameContent | run_spec2k6_auto.py:92-95 | when the hash has no collision among the files the filesystem holds, paths that compare equal read the same bytes, or neither can be read |
| Md5.OneFileNoCollision | run_spec2k6_auto.py:92-95 | a filesystem holding a single file has no collision under any hash, so the condition above can be met |
| Staging.BitPath | run_spec2k6_auto.py:216 | the bitstream's destination: `folder_path + "/design-vcu118.bit"` |
| Staging.StagedPath | run_spec2k6_auto.py:220-221 | every other destination (lines 221, 226, 231, 236 and 242): `folder_path + "/" + basename(src)` |
| Staging.SymlinkPlan | run_spec2k6_auto.py:213-237 | the five (source, destination) pairs `prepare_symlinks` links, in its order: bitstream, U-Boot SPL, U-Boot ITB, kernel, device tree |
| Staging.CopyPlan | run_spec2k6_auto.py:239-242 | the root filesystem and its destination under its own base name |
| Staging.Plan | run_spec2k6_auto.py:213-242 | the six artifacts in the order the handler stages them, the copied root filesystem last |
| Staging.BitPathName | run_spec2k6_auto.py:216 | the bitstream is staged as `design-vcu118.bit` whatever its own name |
| Staging.StagedPathName | run_spec2k6_auto.py:220-221 | every other artifact is staged under its own base name |
| Staging.StagedPathsCollide | run_spec2k6_auto.py:220-236 | two artifacts go to the same destination exactly when their base names agree |
| Staging.BitPathCollides | run_spec2k6_auto.py:216-221 | an artifact goes to the bitstream's destination exactly when it is itself named `design-vcu118.bit` |
| Staging.LinkStep | run_spec2k6_auto.py:204-211 | after `create_symlink` something is at `link`: either a link to `org` or everything exactly as before |
| Staging.LinkStepFrame | run_spec2k6_auto.py:204-211 | `create_symlink` changes no path but `link` |
| Staging.LinkStepWhenFree | run_spec2k6_auto.py:205-206 | when nothing is at `link`, the link to `org` is made and nothing else changes |
| Staging.LinkStepKeepsMatch | run_spec2k6_auto.py:207-208 | when something at `link` has `org`'s digest token, the filesystem is left exactly as it was |
| Staging.LinkStepReplacesMismatch | run_spec2k6_auto.py:208-211 | when the digest tokens differ, the entry at `link` becomes a link to `org` and nothing else changes |
| Staging.LinkStepRepairsDanglingLink | run_spec2k6_auto.py:208-211 | a dangling link at `link` reads as `""`, never matches a readable `org`, and is repointed at it |
| Staging.LinkStepMatches | run_spec2k6_auto.py:204-211 | after `create_symlink` with an absolute `org`, `link` has `org`'s digest token |
| Staging.LinkStepIdempotent | run_spec2k6_auto.py:204-211 | with an absolute `org`, a second `create_symlink(org, link)` changes nothing |
| Staging.RelativeSourceDangles | run_spec2k6_auto.py:206-217 | a bitstream named by a relative path is readable where the script checks it, but the link made for it dangles, so it is not staged and it never compares equal to its source |
| Staging.LinkAll | run_spec2k6_auto.py:213-237 | the filesystem after `create_symlink` on each artifact of a list, one after the other |
| Staging.LinkAllFive | run_spec2k6_auto.py:213-237 | five `create_symlink` calls in a row are the plan-driven `LinkAll` over those five artifacts |
| Staging.CopyStep | run_spec2k6_auto.py:244-250 | without an exception, the destination is readable with the source's digest; a destination already matching is left untouched with no error; a regular-file source distinct from a resolvable destination raises nothing |
| Staging.CopyStepFrame | run_spec2k6_auto.py:244-250 | the copy changes only the destination and the file its links lead to |
| Staging.MatchedDestinationExists | run_spec2k6_auto.py:247 | a destination matching the digest of a regular-file source is readable, so it counts as staged |
| Staging.RelinkInPlan | run_spec2k6_auto.py:209-211 | remaking a plan's link stages that artifact, keeps earlier artifacts staged, and leaves later destinations resolving as before |
| Staging.LinkStepInPlan | run_spec2k6_auto.py:204-211 | one `create_symlink` of the plan stages its artifact, keeps the earlier ones staged and keeps the plan's conditions |
| Staging.LinkAllInPlan | run_spec2k6_auto.py:213-237 | linking a stretch of the plan stages all artifacts up to its end and leaves later destinations alone |
| Staging.Staged | run_spec2k6_auto.py:244-247 | an artifact is in place when its destination can be read and has its source's digest token: exactly when `create_symlink` and `copy_neccessary_file` leave it alone |
| Staging.StagedAfterFreshWrite | run_spec2k6_auto.py:245 | creating a file where nothing was keeps staged artifacts staged |
| Staging.StagedAfterReplace | run_spec2k6_auto.py:249-250 | replacing a destination no link points at keeps other staged artifacts staged |
| Staging.CopyWhenMissing | run_spec2k6_auto.py:244-245 | copying to an unreadable but resolvable destination raises nothing and keeps staged artifacts staged |
| Staging.CopyOverDifferent | run_spec2k6_auto.py:247-250 | over a destination whose digest differs, the destination entry itself becomes the new file and nothing else changes |
| Staging.CopyWhenDifferent | run_spec2k6_auto.py:247-250 | that replacement raises nothing and keeps the other staged artifacts staged |
| Staging.CopyKeepsOthers | run_spec2k6_auto.py:244-250 | the copy of a regular-file source to a resolvable destination no link points at raises nothing, stages it, and keeps the other staged artifacts staged |
| Staging.PlanPrefixApart | run_spec2k6_auto.py:239-242 | the staged artifacts before the copy neither come from nor go to the root filesystem's destination |
| Staging.CopyInPlan | run_spec2k6_auto.py:239-250 | `copy_neccessary_file` after the links raises nothing and leaves every artifact staged |
| Staging.Stage | run_spec2k6_auto.py:308-311 | one staging run: the links of `prepare_symlinks`, then the copy of `copy_neccessary_file`, with the copy's exception |
| Staging.StageEstablishes | run_spec2k6_auto.py:308-311 | from a filesystem meeting the plan's conditions (distinct destinations, regular-file sources, absolute sources for the five links, no link into a destination), one run raises nothing and every destination reads bytes with its source's digest |
| Staging.LinkAllWhenStaged | run_spec2k6_auto.py:207-208 | links that are all staged are left alone |
| Staging.SecondRunChangesNothing | run_spec2k6_auto.py:207-208 | a run over a fully staged folder changes nothing and raises nothing |
| Staging.StageIdempotent | run_spec2k6_auto.py:308-311 | after one run, a second run changes nothing |
| Staging.LinkAllFrame | run_spec2k6_auto.py:213-237 | the links of `prepare_symlinks` change no path but their own destinations |
| Staging.StageFrame | run_spec2k6_auto.py:308-311 | a whole run changes no path but the destinations and, when the copy's destination is a link after the links are made, the file that link leads to |
| Staging.InFolderInjective | run_spec2k6_auto.py:221 | two entries of one folder are the same path exactly when their names are |
| Staging.FolderDstsDistinct | run_spec2k6_auto.py:216-242 | artifacts staged in one folder have distinct destinations exactly when their names are distinct |
| Staging.PlanDestinationsDistinct | run_spec2k6_auto.py:216-242 | the handler's six destinations are distinct exactly when the six staged names are |
| Staging.HandlerStagingIdempotent | run_spec2k6_auto.py:213-250 | for the handler's own artifacts with distinct names, regular-file sources, absolute sources for the five links, no link into a destination and a resolvable root filesystem destination: one run stages everything and a second changes nothing |
| Staging.HandlerStageFrame | run_spec2k6_auto.py:308-311 | a run of the handler changes no path but its six destinations and the file a linked root filesystem destination leads to |
| Staging.SymlinkSteps | run_spec2k6_auto.py:213-237 | `prepare_symlinks`'s five `create_symlink` calls, written out in the script's order |
| Staging.SymlinkStepsFollowPlan | run_spec2k6_auto.py:213-237 | `prepare_symlinks`'s five calls, in its order, are the symlink plan |
| Staging.PreparationHandler.constructor | run_spec2k6_auto.py:172-176 | `dir` is `abspath(path)`, `folder_path` is `abspath(path) + "/" + folder_name`, the staged paths start empty |
| Staging.PreparationHandler.IsFileExist | run_spec2k6_auto.py:178-183 | the result is the absolute path when a file can be read there, `""` otherwise |
| Staging.PreparationHandler.CreateSymlink | run_spec2k6_auto.py:204-211 | the new filesystem is `LinkStep` of the old one, whose cases and frame are proved above |
| Staging.PreparationHandler.PrepareSymlinks | run_spec2k6_auto.py:213-237 | `bit_path` is `folder_path + "/design-vcu118.bit"`, every other path is `folder_path + "/" + basename(src)`, and the filesystem is the five links made in order |
| Staging.PreparationHandler.CopyNecessaryFile | run_spec2k6_auto.py:239-250 | `root_fs_path` is `folder_path + "/" + basename(root_fs)`, and the filesystem and the exception are those of `CopyStep` |
| Runner.IsFileExist | run_spec2k6_auto.py:70-75 | returns the name unchanged exactly when something readable is there, and otherwise exits with status 1 |
| Runner.IsFileExistAgrees | run_spec2k6_auto.py:178-183 | on an absolute path, the handler's `is_file_exist` returns the path exactly when the script's would |
| Runner.TargetName | run_spec2k6_auto.py:110 | `"{0}_{1}".format(core, target)`: the core, then `_`, then the target, each found again at its position |
| Runner.TargetNameSplits | run_spec2k6_auto.py:110 | from `core + "_" + target`, with `core` free of `_`, the first `_`-token is the core and the rest is the target |
| Runner.TargetNameInjective | run_spec2k6_auto.py:110 | distinct (core, target) pairs with `_`-free cores give distinct target names |
| Runner.MachineName | run_spec2k6_auto.py:282-286 | the machine name has no `.`, is a prefix of the host name, and stops at the first `.` or at the end |
| Runner.MachineNameOfShortName | run_spec2k6_auto.py:282-286 | a host name without `.` is its own machine name |
| Runner.MachineNameOfQualified | run_spec2k6_auto.py:282-286 | the machine name of `m.domain` is `m` |
| Runner.SymlinkDirName | run_spec2k6_auto.py:301 | `symlink_dir_` followed by the machine name, which holds no `.` |
| Runner.SymlinkDirNamed | run_spec2k6_auto.py:301-302 | the staging folder's base name is `symlink_dir_` followed by the machine name, which can be read back from it |
| Runner.ScriptPath | run_spec2k6_auto.py:253-254 | the runner script is `pro_fpga_run_linux.py` directly inside the script directory |
| Runner.HandlerDestinations | run_spec2k6_auto.py:256-262 | the folder and destination paths `run_spec2k6` reads off the handler |
| Runner.FixedOptions | run_spec2k6_auto.py:256-270 | the options `run_spec2k6` always passes, flag by flag in its order, with the handler's destinations, the server IP, and the iteration and retry counts as `str` writes them |
| Runner.ExitOptions | run_spec2k6_auto.py:272-277 | the switches appended after them: `--keep-nbd-when-exit` unless `not_keep_nbd_when_exit`, then both skip switches when `not_reflash` |
| Runner.RunnerOptions | run_spec2k6_auto.py:256-277 | the fixed options followed by the appended switches |
| Runner.CommandLine | run_spec2k6_auto.py:256-277 | `python3`, the runner script, then the words of all options |
| Runner.RenderAppend | run_spec2k6_auto.py:272-277 | the words of two option lists are the words of each, in order |
| Runner.RenderFrom | run_spec2k6_auto.py:256-270 | the words from the `k`-th option on are that option's words, then the rest |
| Runner.ExitWords | run_spec2k6_auto.py:272-277 | the trailing switches are written as `--keep-nbd-when-exit` unless `not_keep_nbd_when_exit`, then the two skip switches when `not_reflash` |
| Runner.AppendExit | run_spec2k6_auto.py:272-277 | the list after the conditional appends is the rendering of all options |
| Runner.ReadRender | run_spec2k6_auto.py:256-277 | options whose flags are of the kind the runner expects are read back from their words unchanged |
| Runner.LookupFinds | run_spec2k6_auto.py:256-270 | the runner sees for a flag the value written after it when no later option gives that flag another value |
| Runner.LookupAbsent | run_spec2k6_auto.py:256-270 | a flag no option gives a value is seen with none |
| Runner.WellKindedAppend | run_spec2k6_auto.py:272-277 | appending options of the expected kinds keeps every option of the expected kind |
| Runner.RunnerOptionsWellKinded | run_spec2k6_auto.py:256-277 | every option of the command is of the kind the runner expects for its flag |
| Runner.FixedWellKinded | run_spec2k6_auto.py:256-270 | the same for the fixed options |
| Runner.CommandReadsBack | run_spec2k6_auto.py:256-277 | the command is `python3`, the runner script, then words the runner reads back as exactly the options passed |
| Runner.FixedDistinct | run_spec2k6_auto.py:256-270 | no flag of the fixed options is given a value twice |
| Runner.DistinctPastSwitches | run_spec2k6_auto.py:272-277 | appending switches keeps every flag's value unique |
| Runner.RunnerSeesValues | run_spec2k6_auto.py:256-277 | for every option with a value, the runner sees that value under its flag |
| Runner.RunnerSeesRootFsAndRetries | run_spec2k6_auto.py:260-270 | the runner sees the root filesystem's destination, the iteration count as `str` writes it, and `3` retries |
| Runner.CommandShape | run_spec2k6_auto.py:256-277 | the command begins with the fixed sequence ending `"--retry", "3"`, and what follows is `--keep-nbd-when-exit` exactly when `not_keep_nbd_when_exit` is false, then `--skip-linux-boot`, `--skip-program-fpga` in that order exactly when `not_reflash` is true |
| Runner.FixedSwitches | run_spec2k6_auto.py:256-270 | the only switches among the fixed options are `--nbd`, `--fpga-use-static-ip` and `--spec2k6` |
| Runner.SwitchesFollowArgs | run_spec2k6_auto.py:272-277 | the runner finds `--keep-nbd-when-exit` exactly when `not_keep_nbd_when_exit` is false, and each skip switch exactly when `not_reflash` is true |
| Runner.RunSpec2k6 | run_spec2k6_auto.py:252-280 | the list built by conditional appends is the command line of all options, whose shape and read-back are proved above |
| Runner.AllSourcesExist | run_spec2k6_auto.py:111-142 | each of the six artifacts the ini file names can be read |
| Runner.ParseIniChecks | run_spec2k6_auto.py:101-144 | `parse_ini`'s checks pass exactly when the script directory exists and all six artifacts can be read, and otherwise end the script with status 1 |
| Runner.StagedDestinations | run_spec2k6_auto.py:216-242 | the folder and the destinations the handler records for the ini file's artifacts, each under its base name inside the folder |
| Runner.RunAuto | run_spec2k6_auto.py:288-316 | when a check of `parse_ini` fails nothing is staged and no command is built; otherwise the main block stages into `abspath("./") + "/symlink_dir_<machine>"`, the filesystem is that of one staging run, a command naming the staged destinations and the target `core_target` built from the ini file's `core` and `target` is built exactly when the copy raised nothing, and no path changes but the six destinations and the file a linked root filesystem destination leads to |

## Left out

- `parse_args` and `check_file_exist`: argument parsing and `parser.error` are library behaviour. The parsed values are the fields of `Runner.RunArgs`.
- The configparser lookups in `parse_ini` are left out: every section and key is taken to be present. On a missing section the script prints a message, skips that block's `is_file_exist` (lines 104-105, 113-114, 119-120, 125-126, 131-132, 137-138, 143-144) and keeps `""` for its paths, so it goes on to stage `""`. `Runner.ParseIniChecks` instead treats every check as made, and a missing file ends the script with status 1. A missing key (`NoOptionError`) is not caught by the script and is not modelled either. Only the target name and the existence checks are modelled.
- `get_ip_addr` is left out: it is a netifaces call. The server IP is a parameter.
- `socket.gethostname` is left out. The host name is a parameter.
- `subprocess` is left out. The `md5sum` processes and the final `subprocess.run` are not executed. `md5sum`'s standard output is modelled from a `Hasher` parameter that stands for the MD5 function, and the hash itself is not modelled. `print` output is not modelled.
- `create_directory` and `delete_directory` are left out because the model has no directories. The staging folder is taken to exist. `delete_directory` is never called.
- The abstract base class `file_handler` has no behaviour of its own and is not modelled.
- `os.symlink` failures other than an occupied path are not modelled. These include a missing parent directory and permissions.
- `os.remove` raising is not modelled, for the same reason.
- `shutil.copyfile` failures other than the same-file check, an unreadable source and a looping destination are not modelled.
- Paths are compared as strings. A relative path is its own key, standing for that name in the working directory. Two spellings of one file (relative against absolute, `a//b` against `a/b`) are distinct keys, except where the model applies `abspath`. A relative link target is read from the link's directory by plain concatenation, so a target holding `..` or `.` is not resolved.
- The existence of the script directory is a parameter of `Runner.RunAuto` and `Runner.ParseIniChecks`, because directories are not in the filesystem model.
- `md5sum`'s backslash escaping of names holding a newline or backslash is not modelled. Its reading of names that begin with `-` as options is not modelled either.
- `Runner.ReadOptions`: a value that begins with `-` is read as the flag's value. argparse would refuse it.
- Python's `str.format` and `str()` are modelled only for the strings and integers the script formats.
- `Staging.StageEstablishes`, `Staging.StageIdempotent` and `Staging.HandlerStagingIdempotent` hold only under stated conditions:
  - distinct destinations;
  - regular-file sources that are not destinations themselves;
  - absolute sources for the five links (a relative link source leaves its link dangling; see Findings). The root filesystem may be relative, because `shutil.copyfile` reads it from the working directory, as `is_file_exist` does.
  - no symbolic link pointing into a destination;
  - a root filesystem destination that does not loop.

  Outside them, a link step can change what an earlier destination reads.
- `Staging.LinkStepMatches` and `Staging.LinkStepIdempotent` require the source to resolve in fewer than 40 hops. A source needing exactly 40 hops resolves by itself but not through the new link.
- `Staging.LinkStepMatches` and `Staging.LinkStepIdempotent` also require an absolute source. A relative one is read from the link's directory and the new link dangles (see Findings).
- `Md5.CompareTwoFiles` reports two unreadable paths as equal, as the script does. `create_symlink` therefore keeps a dangling link whose source is also missing.

## Findings

| source | as written | input that shows it | evidently intended | confidence | as-written member | corrected member |
|---|---|---|---|---|---|---|
| run_spec2k6_auto.py:206 | `create_symlink` passes the ini path to `os.symlink` unchanged, and Linux reads a relative link target from the folder holding the link, while `is_file_exist` and `md5sum` read it from the working directory | an ini file with `bit = x.bit`, `x.bit` in the working directory: the link `symlink_dir_<machine>/design-vcu118.bit -> x.bit` leads to `symlink_dir_<machine>/x.bit`, which does not exist; every later run sees a mismatch and remakes the same dangling link | each link reads its source file; with absolute ini paths, one run stages every artifact and a second changes nothing | likely; not executed | Staging.RelativeSourceDangles | Staging.HandlerStagingIdempotent |
