# Ullage verification

A Dafny model of the parts of Ullage that edit what a user cannot easily get
back: Steam's binary `appinfo.vdf`, the recorded launch and Cloud mappings, the
generated files of an installation, the runtime package store and the forwarder
file of a Wine prefix. `dafny verify dfyconfig.toml` checks all of it.

The code that works in place is modelled as classes and loops
(`AppInfoFile`, `CloudFiles`, `MappingFile`, `Installer`, `Remover`,
`RuntimeStore`, `Forwarder`), each proved equal to a function on values or
against an invariant; the promises are then theorems about those functions and
invariants.

| part | modules |
|---|---|
| bytes, texts, dictionaries | `Words`, `Strings`, `PythonText`, `Vdf`, `Storage` |
| the binary format and its rewrite | `Codec`, `AppImage`, `AppInfoFile`, `Sizes`, `Formats` |
| launch entries and recorded states | `Launch`, `Plan`, `Undo`, `Editor`, `Commands`, `Offers`, `Patching`, `Restoring` |
| native Cloud overrides | `Cloud`, `CloudUndo`, `CloudFiles`, `Overriding`, `SaveRules`, `Globs`, `Templates` |
| inspecting and repairing | `Mapping`, `Repairing`, `Repairs`, `MappingFile`, `Repeated` |
| whole runs | `EndToEnd`, `Lifecycle`, `CloudRuns`, `CloudLife`, `ScriptRuns`, `CloudScripts`, `Scratch` |
| shell transactions | `InstallPlan`, `Installer`, `Remover` |
| runtime packages | `Runtime`, `RuntimeRuns`, `RuntimeStore`, `Genuine`, `Forwarder` |

What the functions mean is stated without them: `Offers`, `Patching`,
`Restoring`, `Overriding`, `Repairs`, `Genuine`, `Templates` and `Formats` say in
terms of fields, bytes and files what is selected, what is refused, when each
operation succeeds, and what it leaves.

Conventions. A `Dict` is a Python dictionary with its insertion order; a `Tree`
is the same value without order, which is what Python compares and what a JSON
file with sorted keys keeps, so theorems about undoing speak of trees. A file is
well formed when its records end before the string table and the string table
ends the file. A text is storable when the format can hold it
(`Strings.Storable`); texts read from a file are, unless their bytes are UTF-8
that ends in 0x06. Every rewrite starts from a freshly loaded image, as every
command of the tool does.

Where a promise does not hold as one would state it, the code is kept and the
exact condition is proved; the last column names a lemma or method with an input
that fails.

| promise | when exactly | an input that fails |
|---|---|---|
| bytes survive reading and writing | `Strings.EncodeDecode` | `Strings.MarkLost` |
| a validated restore succeeds | `Undo.RestoreFailsExactly` | `Undo.RemovedTwice` |
| a repair that returns is healthy | `Repairing.RepairHeals` | `Repeated.RepeatedEntry` |
| a failed installation leaves the client manifest | `InstallPlan.ManifestReplacedExactly` | `Installer.ReplaceManifest` |
| a failed installation leaves the links | `ScriptRuns.InstallLinksLeft` | `Installer.LoseLink` |
| a failed removal keeps the launch state | `Remover.StateLostExactly` | `Remover.LoseState` |
| a failed Cloud restore can be run again | `CloudUndo.SecondRestore`, `CloudRuns.SecondRestoreFile` | `CloudUndo.SecondRestoreRefused` |
| an installed Cloud mapping can be taken away | `CloudLife.RestoreOutcome` | `CloudLife.ResetLocks`, `CloudLife.LockedForGood` |
| the history is headed by another package | `RuntimeRuns.ActivateWithSound` | `RuntimeRuns.InterruptedHead` |
| a failed stage leaves the prefix | `Forwarder.StageFails` | `Forwarder.DanglingLost` |
| a failed restore leaves the prefix | `Forwarder.RestoreFails` | `Forwarder.DanglingGone` |
| a recursive rule ignores what follows its path | `Globs.RecursiveRule` | `Globs.NewlineMissed` |

## Model

| member | source | states |
|---|---|---|
| Strings.DecodeEncode | bin/ullage-appinfo.py:95-108 | Writing a text and reading it back gives the text if and only if it holds no NUL and does not end in the marker except as the Latin-1 fallback of bytes that are not UTF-8. |
| Strings.EncodeDecode | bin/ullage-appinfo.py:95-108 | Reading bytes and writing them back gives the bytes if and only if they are not valid UTF-8 that ends in byte 0x06. |
| Strings.MarkLost | bin/ullage-appinfo.py:95-108 | The input that shows it: the single byte 0x06 is written back as nothing. |
| Codec.ReadDictProper | bin/ullage-appinfo.py:134-145 | Whatever the reader returns has distinct keys at every level, on every byte string. |
| Codec.ReadDictMoved | bin/ullage-appinfo.py:110-145 | The reader depends on nothing but the bytes it consumes and a prefix of the pool: moved bytes and a longer pool read as the same tree, at the moved end. |
| Codec.ReadDictAt | bin/ullage-appinfo.py:110-201 | Round trip in both key modes, the pool threaded through: the encoding of a tree with distinct keys and storable texts reads back as that tree, to its exact end, inside any surrounding bytes. |
| Codec.EncodeDictPool | bin/ullage-appinfo.py:173-201 | The version 29 pool after encoding is the old pool followed by distinct keys, exactly those the tree uses and the pool lacked. |
| Codec.EncodeReadDict | bin/ullage-appinfo.py:110-201 | Conversely, re-encoding a tree that was read gives the very bytes and the same pool, when keys are not repeated at a level, strings are not marked by accident and pool indices are first occurrences. |
| Formats.LittleEndian | bin/ullage-appinfo.py:110-201 | Words are little-endian: the first byte is the lowest. |
| Formats.Utf8Examples | bin/ullage-appinfo.py:95-108 | Texts are encoded as in the examples of RFC 3629, section 7. |
| Formats.DictExample28 | bin/ullage-appinfo.py:183-201 | Two dictionaries of one entry in the bytes of version 28: type, key and text or number, end marker. |
| Formats.DictExample29 | bin/ullage-appinfo.py:173-201 | The same in version 29, with places in the pool for keys; a new key is appended. |
| Formats.NestedExample | bin/ullage-appinfo.py:183-201 | A dictionary within one, with an end marker of its own. |
| Formats.HeaderFields | bin/ullage-appinfo.py:235-245 | Every field of a record header stands at its place in the 68 bytes. |
| Formats.VersionNumbers | bin/ullage-appinfo.py:22-23 | The eight bytes each version begins with. |
| AppImage.ScanContiguous | bin/ullage-appinfo.py:147-171 | Scanned record ranges follow each other from the start of the scan without gaps, and lie within the data. |
| AppImage.IndexLast | bin/ullage-appinfo.py:147-171 | Of several records of one app the last in the file counts. |
| AppImage.ScanSplice | bin/ullage-appinfo.py:147-171 | A scan over spliced bytes finds the edited record where the old one was and every other record unchanged but for its shift. |
| AppImage.SpliceTheorem | bin/ullage-appinfo.py:223-255 | One rewrite of a well-formed version 28 or 29 image is well formed and reads back as the old image with that app's sections replaced: all other records keep header, sections and bytes, the pool grows by exactly the missing keys, exact size fields stay exact, and the string table moves by what the record grew. The new header counts the record's bytes and holds the digests of the new sections and of their bytes in the file. |
| AppImage.ChecksKept | bin/ullage-appinfo.py:223-255 | An image in which every header is true of its record stays one: sizes and both digests of all records. |
| AppImage.RewriteFails | bin/ullage-appinfo.py:223-255 | With storable sections, such a rewrite can fail only by outgrowing a field of the format. |
| Sizes.SameLength | bin/ullage-appinfo.py:173-201 | How many bytes sections take depends on their tree alone: neither key order nor the pool changes it. |
| Sizes.RewriteFailsExactly | bin/ullage-appinfo.py:223-255 | Sections that need no new key are rewritten if and only if the record fits its size field and the string table, where there is one, its offset field; both are sums over the tree. |
| AppInfoFile.AppInfo.Load | bin/ullage-appinfo.py:61-81 | Loading fills the object with exactly the parsed image, or fails as the parse does; the bytes stay. |
| AppInfoFile.AppInfo.ReadPool | bin/ullage-appinfo.py:83-93 | The pool loop reads exactly the counted strings of the table. |
| AppInfoFile.AppInfo.ReadDict | bin/ullage-appinfo.py:134-145 | The reading loop computes the specified tree and end, or the specified error. |
| AppInfoFile.AppInfo.ReadRecords | bin/ullage-appinfo.py:147-171 | The record loop indexes exactly the scanned records, a later record replacing an earlier one. |
| AppInfoFile.AppInfo.EncodeKey | bin/ullage-appinfo.py:173-181 | A known key is encoded by its first index; a new one is appended to the object's pool. |
| AppInfoFile.AppInfo.EncodeDict | bin/ullage-appinfo.py:183-201 | The encoding loop computes the specified bytes and leaves the specified pool. |
| AppInfoFile.AppInfo.RewriteRecord | bin/ullage-appinfo.py:223-255 | Splicing, appending and patching in place leave exactly the specified image. |
| AppInfoFile.AppInfo.WindowsLaunches | bin/ullage-appinfo.py:295-346 | The loop lists exactly the specified launches. |
| AppInfoFile.AppInfo.DisableUnusable | bin/ullage-appinfo.py:348-406 | The loop edits the sections of one app as specified and returns the record of it. |
| AppInfoFile.AppInfo.ReplaceLaunches | bin/ullage-appinfo.py:408-433 | All entries are redirected as specified with one rewrite; on an error the bytes and the pool are unchanged. |
| AppInfoFile.AppInfo.ReplaceLaunch | bin/ullage-appinfo.py:257-293 | One entry, named or first to match, is redirected as specified; an unexpected executable changes nothing. |
| AppInfoFile.AppInfo.RestoreState | bin/ullage-appinfo.py:458-564 | Restores as specified; when validation fails neither sections nor bytes nor pool have changed. |
| Commands.PatchAllCommand | bin/ullage-appinfo.py:648-679 | The patch-all driver turns the bytes of a file into exactly the specified file and state. |
| Commands.PatchCommand | bin/ullage-appinfo.py:611-644 | So does the patch driver. |
| Commands.RestoreCommand | bin/ullage-appinfo.py:695-701 | The restore driver writes exactly the specified file, and only when the state was still in force. |
| Offers.WindowsExactly | bin/ullage-appinfo.py:305-323 | In fields: an entry is offered on Windows if and only if its key is digits, it has an executable, and one comma-separated part of the oslist, stripped and lowered, is windows. The entry's own oslist decides whatever the app's says, else the app's does, and with neither the entry is offered. |
| Offers.SelectsExactly | bin/ullage-appinfo.py:295-346 | The launches are, each once, exactly the offered entries whose executable ends in .exe in any case and is in the depot, with that executable and the working directory the entry names. |
| Offers.LaunchesExactly | bin/ullage-appinfo.py:295-346 | Listing succeeds if and only if there is a launch section, any common section is a dictionary, and some launch is listed. |
| Offers.PatchAllExactly | bin/ullage-appinfo.py:348-433 | After patch-all every listed entry starts its own launcher and has nothing else changed; every offered entry that is not listed has its config kept but for the oslist ullage-disabled; every other entry is as it was. |
| Patching.PatchAllSucceedsExactly | bin/ullage-appinfo.py:648-676 | It succeeds if and only if some launch is listed and no entry that must be hidden has a config that is no dictionary. |
| Patching.ReplaceOneExactly | bin/ullage-appinfo.py:284-292 | A redirection succeeds if and only if the entry starts a text that the caller believes it to start; then that executable is the new one and nothing else has changed. |
| Patching.BaseNameExactly | bin/ullage-appinfo.py:276 | The file name compared is what follows the last slash of either kind. |
| Patching.FirstMatchExactly | bin/ullage-appinfo.py:267-283 | The entry found is the first in the order of the section that starts something of that file name, whatever the case; none is found only if there is none. |
| Patching.PatchOneExactly | bin/ullage-appinfo.py:611-644 | A single patch that succeeds has redirected the selected entry, which started what the caller believed and is recorded so, has hidden exactly the entries it should, and changed no other. |
| Patching.PatchOneSucceedsExactly | bin/ullage-appinfo.py:611-644 | It succeeds if and only if the selector means an entry that starts what the caller believes, and what must be hidden can be. |
| Restoring.ValidatesExactly | bin/ullage-appinfo.py:479-551 | In fields: validation succeeds if and only if every recorded entry starts its original or its installed executable, and every disabled entry has the config it had, or none as it had none, or the installed one. |
| Restoring.RestoresExactly | bin/ullage-appinfo.py:458-564 | A recorded state is restored if and only if that is so; then the section is the one with all originals in place, nothing else of the app changes, and it is reported as changed if and only if it differs. |
| Restoring.ForeignRefused | bin/ullage-appinfo.py:470-551 | One foreign executable or config, a state of another app, or a missing section makes the restore of a file an error, whatever else there is. |
| Restoring.RestoresFileExactly | bin/ullage-appinfo.py:458-564 | On a loaded file a restore fails only for that or by overflow; else the originals are in place and no other app has changed, and with nothing to restore the bytes stay. |
| Undo.SelectExact | bin/ullage-appinfo.py:295-346 | The listed launches are, each once, exactly the numbered entries with an .exe that the client offers on Windows and that exist in the depot. |
| Undo.PatchAllInstalls | bin/ullage-appinfo.py:648-676 | What patch-all records is the native section, and what it leaves is that section with its whole plan in force; nothing else of the app changes. |
| Undo.PatchAllCovers | bin/ullage-appinfo.py:295-433 | After patch-all every entry offered on Windows is either redirected to its own launcher or carries the disabled marker, never both, and every other entry is as it was. |
| Undo.PatchOneInstalls | bin/ullage-appinfo.py:611-644 | A single patch records and installs its plan in the same way, whatever it selects and whether or not it disables the rest. |
| Undo.RestoreUndoes | bin/ullage-appinfo.py:458-564 | On every section between native and installed, restoring succeeds, gives back the native launch section, touches nothing else, and a second restore has nothing to do. |
| Undo.RestoreFailsExactly | bin/ullage-appinfo.py:479-563 | After validation, a restore fails if and only if two records of the state remove the config of one entry that had none and has one now, and no record of that entry between them puts another one back. |
| Undo.RemovedTwice | bin/ullage-appinfo.py:519-563 | The input that shows it: a state that lists one such entry twice passes validation, and its restore fails. |
| Storage.RepresentableTree | bin/ullage-appinfo.py:173-201 | Whether sections can be written depends on their tree and the pool alone, not on key order. |
| Storage.FitsAllLonger | bin/ullage-appinfo.py:173-201 | What can be written with a pool can be written with a longer one. |
| Cloud.NextKeyIsNext | bin/ullage-cloud-native.py:171-176 | The loop that looks for a free key never advances: one past the largest numeric key is always free. |
| CloudUndo.SupportedRootsExact | bin/ullage-cloud-native.py:137-148 | The roots to redirect are exactly the supported ones that some save-file rule names, each once. |
| CloudUndo.InstallExact | bin/ullage-cloud-native.py:455-504 | For any override table and distinct roots the keys used are pairwise distinct, an existing override is reused only for its own root and is recorded, and no other override changes. |
| Overriding.InstallTakes | bin/ullage-cloud-native.py:471-482 | In fields: each root takes the first override that has this root, this platform, and a comparison that is missing or =, if its key is not empty, and records it; else it takes a key no override had, and records none. |
| Overriding.OthersKept | bin/ullage-cloud-native.py:471-482 | So an override of another root, platform or comparison keeps its value, whatever is installed. |
| Overriding.GeneratedExactly | bin/ullage-cloud-native.py:186-193 | What is written under the key: root, platform, comparison, the directory used instead and the path below it. |
| Overriding.NormalizesExactly | bin/ullage-cloud-native.py:179-183 | The directory of the links is accepted if and only if it has a part that is not empty and none that is a dot or two, and keeps its parts but for the empty ones. |
| Overriding.AddPathsApart | bin/ullage-cloud-native.py:196-200 | Two roots of one app never share a directory. |
| Overriding.AppsApart | bin/ullage-cloud-native.py:196-200 | Nor do two apps, whatever their roots. |
| Overriding.RootsExactly | bin/ullage-cloud-native.py:137-168 | The rules are served if and only if no root is itself a dictionary, none begins with Win and is unknown, one is supported, and the machine has what gameinstall and SteamCloudDocuments need. |
| Overriding.LinksExactly | bin/ullage-cloud-native.py:460-494 | The overrides and links are installed if and only if every root has its directory, what stands where a link belongs is that very link or nothing and it can be made, and no two roots want one link for two directories. |
| Overriding.InstallSucceedsExactly | bin/ullage-cloud-native.py:410-505 | So a Cloud install succeeds, up to the rewrite, if and only if the prefix, the directory, the rules, the table and the links are in order. |
| CloudUndo.InstallLinks | bin/ullage-cloud-native.py:484-494 | Installing only adds links; every added link is owned by an entry, and no owned link was there before. |
| CloudUndo.RestoreExact | bin/ullage-cloud-native.py:557-570 | Restoring succeeds if and only if every recorded override still equals the generated one, and then puts back exactly the recorded originals and keeps all others. |
| CloudUndo.RemoveExact | bin/ullage-cloud-native.py:575-581 | Exactly the owned links that still point where they did are removed. |
| CloudUndo.SecondRestore | bin/ullage-cloud-native.py:557-581 | A restore that has put the table back, and then gave up on a link, can be run again if and only if every recorded original equals the generated override. |
| CloudUndo.SecondRestoreRefused | bin/ullage-cloud-native.py:557-570 | The input that shows it: one override that was not there before is taken away by the first restore and missed by the second. |
| CloudUndo.CloudUndoes | bin/ullage-cloud-native.py:410-582 | While the table is the installed one, a restore from the reloaded state succeeds, gives the original table (an empty one where there was none), changes nothing else of the app, and leaves the links as before the install. |
| CloudFiles.CollectRoots | bin/ullage-cloud-native.py:137-148 | The loop collects exactly the specified roots. |
| CloudFiles.NextOverrideKey | bin/ullage-cloud-native.py:171-176 | The two loops compute the next key, which is free. |
| CloudFiles.Adapter.InstallRoots | bin/ullage-cloud-native.py:460-504 | The install loop edits the table and the links as specified and keeps the list of links it created, also when it fails. |
| CloudFiles.Adapter.RemoveCreated | bin/ullage-cloud-native.py:533-538 | Unlinking the created links, latest first, gives the links there were before. |
| CloudFiles.Adapter.Install | bin/ullage-cloud-native.py:410-538 | Image, links and state are exactly as specified, or on any failure exactly as before. |
| CloudFiles.Adapter.Restore | bin/ullage-cloud-native.py:541-582 | A refused restore changes nothing; a failing write leaves the image as it was or cut, and the links; otherwise the image is the specified one, and the links are removed in order up to the first that cannot be, which alone makes it fail. |
| CloudFiles.StopsExactly | bin/ullage-cloud-native.py:575-581 | Unlinking stops exactly at the first entry whose link is there, is owned, points where it did, and cannot be removed. |
| CloudFiles.CutUnreadable | bin/ullage-appinfo.py:62-65 | After a write that was cut within the file header no restore reads the image again. |
| EndToEnd.EditStep | bin/ullage-appinfo.py:223-255 | Writing storable sections into a loaded file gives a file that loads with exactly that app edited, under a header with fresh size and digests, or fails by overflow. |
| EndToEnd.RoundTrip | bin/ullage-install:538-582 | Patch-all, Cloud install, launch restore and Cloud restore, four loads and rewrites on bytes: the restores fail only by overflow; otherwise the file reads back with every other record the same, the links as before, and the app's sections equal to the original but for an empty override table where there was none. |
| Scratch.Made28Loads | tests/test_appinfo.py:47-91 | For every storable tree the version 28 image made from scratch is well formed and reads back as one record with that tree and an exact size. |
| Scratch.Made29Loads | tests/test_appinfo.py:47-91 | The same in version 29, with a string table of exactly the keys in the order of their use. |
| Scratch.AnyLaunchSection | tests/test_appinfo.py:47-91 | So every storable launch section is the native section of some file the lifecycle can start from. |
| Repairing.HealthyExactly | bin/ullage-mapping.py:101-180 | A mapping is reported healthy if and only if the image can be read, every recorded entry starts its launcher, and the config and launchers are there. |
| Repairing.ForeignKept | bin/ullage-mapping.py:206-211 | Without force, an entry that is neither original nor installed makes a repair refuse, with the file as it was. |
| Repairing.RepairHeals | bin/ullage-mapping.py:193-271 | A repair that returns reports a healthy mapping if and only if all records of one entry agree on what is installed; either the file is the same, or only the recorded executables of this app differ. |
| Repeated.RepeatedEntry | bin/ullage-mapping.py:193-271 | The input that shows it: for a file and a state that records its entry twice, the inspection says stale, the repair succeeds, and the mapping is not healthy afterwards. |
| MappingFile.CollectActuals | bin/ullage-mapping.py:149-151 | The loop collects the current executable of every recorded entry, or the error of the first entry that is not a dictionary. |
| MappingFile.Classify | bin/ullage-mapping.py:159-180 | The status loop and the precedence foreign, stale, broken, healthy are as specified. |
| MappingFile.Tool.InspectMapping | bin/ullage-mapping.py:101-180 | The inspection is exactly the specified one and changes nothing. |
| MappingFile.Tool.RepairMapping | bin/ullage-mapping.py:193-271 | Result and file are exactly as specified whichever of the seven file operations fail; an error leaves the file unless the final re-inspection raised it, and a changed file was backed up. |
| Repairs.InspectsExactly | bin/ullage-mapping.py:101-180 | What is reported, in fields: invalid for the state of another app; unavailable without a launch section or with an entry that is no dictionary; foreign if some entry starts what was never recorded; else stale if some starts nothing or its original; else broken if a config or launcher is missing; else healthy. |
| Repairs.RepairsOnlyWhen | bin/ullage-mapping.py:193-223 | A healthy mapping is left alone with success. A repair of any other fails and leaves the file alone unless it is stale, or foreign and forced, config and launchers are there, Steam does not run, and no file operation fails. |
| Repairs.RedirectsExactly | bin/ullage-mapping.py:237-250 | For entries recorded once, the redirections of a repair succeed if and only if every recorded entry starts something. |
| Lifecycle.RestoreNative | bin/ullage-remove:80-87 | From every safe file a removal gives back the native launch section and changes no other app, unless a field overflows. |
| Lifecycle.ResetOverlay | docs/metadata-lifecycle.md:22-32 | A launch section in which Steam reset any recorded entries still lies between native and installed. |
| Lifecycle.NextKeeps | bin/ullage-install:419-565 | Install, forced reinstall, single install, repair, Steam refresh, state reload and removal each keep the file safe. |
| Lifecycle.EveryRun | bin/ullage-install:419-565 | After every run of these actions: without a state the launch section is native; with one, recorded originals are native, every recorded executable and config has its original or installed value, and removal brings the native section back. |
| Installer.Transaction.Prepare | bin/ullage-install:419-581 | Whatever fails, only temporary files and the backup of the image were written, and the links are those of the last tool that ran; on success every new file waits beside its place with the specified contents. |
| Installer.Transaction.SetAsideLaunchers | bin/ullage-install:598-610 | At every step of the loop the active plan tells a rollback how to bring back every launcher; on success all planned launchers are aside. |
| Installer.Transaction.PlaceLaunchers | bin/ullage-install:614-618 | New launchers move in one by one; no launcher outside the plan changes. |
| Installer.Transaction.Commit | bin/ullage-install:582-632 | The commit stops at the first of its commands that fails, and succeeds if none does. Wherever it stops a rollback can give back the original files, and the client manifest was replaced only if a clean-up command is the one; on success the new files and the staged manifest are in place. |
| Installer.Transaction.Rollback | bin/ullage-install:365-417 | From every point of the transaction the image, the config, both state files and every launcher become what they were, and no temporary file or backup of them is left; the links are what the Cloud tool makes of them while the staged Cloud state is there. |
| Installer.Transaction.Install | bin/ullage-install:417-633 | The script succeeds if and only if none of its commands, in their order, fails or refuses; then exactly the specified files, links and client manifest are installed. Otherwise all lasting files are as they were and nothing temporary is left; the client manifest and the links are those that the first command to stop the script decides. |
| InstallPlan.ManifestReplacedExactly | bin/ullage-install:417-633 | In the caller's terms: a failed installation replaces the client manifest if and only if there was one to place, a clean-up command fails, and no other command of the script fails or refuses. |
| InstallPlan.SucceedsExactly | bin/ullage-install:417-633 | An installation succeeds if and only if every tool accepts what it is given, there is a launch entry, no launcher is in the way unless it may be replaced, and no command of the script fails. |
| Installer.ReplaceManifest | bin/ullage-install:626-633 | The input that shows it: only the removal of the scratch files fails, nothing is installed, and the client manifest is replaced. |
| Installer.LoseLink | bin/ullage-install:430-434 | The input that shows that links may go: an earlier Cloud mapping comes off the copy, the patch fails, nothing is installed, the earlier mapping is still recorded, and the link it owned is gone. |
| Remover.Removal.Remove | bin/ullage-remove:57-108 | Exactly the commands before the first failing one take effect. On success the image is the restored one and the generated files are retired. On failure the image is as before; the launch state is out of place if and only if the move of the Cloud state failed, and all generated files are in place if and only if the script stopped before the first move. |
| Remover.SucceedsExactly | bin/ullage-remove:57-108 | A removal succeeds if and only if the tools accept the image, no recorded launcher lies outside the launcher directory, and no command of the script fails. |
| Remover.StateLostExactly | bin/ullage-remove:80-108 | In the caller's terms: the launch state is lost if and only if there is a Cloud state and its move is the only command that fails. |
| Remover.LoseState | bin/ullage-remove:105-108 | The input that shows it: image, launch state and Cloud state are there and only the last move fails. |
| CloudRuns.RestoreKeepsLaunch | bin/ullage-cloud-native.py:541-582 | The Cloud restore of any recorded state with storable originals leaves the launch section of the app and every other app as they were. |
| CloudRuns.InstallKeepsLaunch | bin/ullage-cloud-native.py:410-538 | So does the Cloud install. |
| ScriptRuns.InstallIsRun | bin/ullage-install:419-633 | A committed installation, with or without native Cloud and over any earlier mapping, is a run of the lifecycle: removal of the earlier mapping, a refresh for its Cloud part, the install, a refresh for the new Cloud part, and a reload of the written state. |
| ScriptRuns.InstallKeepsSafe | bin/ullage-install:417-633 | Committed or rolled back, the script keeps the world safe. |
| Sizes.UndoFailsExactly | bin/ullage-cloud-native.py:541-574 | Right after the install, on the state read back, the Cloud restore fails if and only if the app's sections from before, with a table of overrides, do not fit the image from before. |
| Sizes.RewrittenOverflows | bin/ullage-appinfo.py:223-255 | On an image a rewrite has written, they do not fit if and only if the app had no table and the size of its record or the table offset has no room for 16 bytes, or 6 in version 29. |
| ScriptRuns.InstallLinksLeft | bin/ullage-install:365-434 | A failed installation leaves the links as they were if and only if its first stopping command is one of the copy, or the new mapping, as far as its links stay, sets again every link that went with the earlier one and sets no other. They stay once the staged Cloud state has moved in, or when the patched image has no room for the table that taking them back leaves. |
| ScriptRuns.RemoveIsRun | bin/ullage-remove:80-108 | A removal that succeeds is a run of the lifecycle that ends without a state; one that fails leaves image and state as they were, except that the state is lost when only the move of the Cloud state failed. |
| CloudLife.RestoreOutcome | bin/ullage-cloud-native.py:541-582 | In every safe world the restore succeeds if and only if every recorded override is in force, but for an overflow; it then gives back the overrides and links there were at first and changes no other app. Otherwise it is refused. |
| CloudLife.NextKeeps | bin/ullage-cloud-native.py:410-582 | Install, restore, a refresh by Steam that puts any recorded overrides back, and a reload of the state each keep the Cloud world safe. |
| CloudLife.EveryRun | bin/ullage-cloud-native.py:410-582 | So does every run of them: only recorded overrides and owned links ever differ from those at first, and without a state none does. |
| CloudLife.LockedForGood | bin/ullage-cloud-native.py:557-564 | Once a refresh has put back one override that the mapping had changed, then after every further run the mapping is still recorded, its links are there, and the restore is refused. |
| CloudLife.ResetLocks | bin/ullage-cloud-native.py:557-564 | The refresh that shows it: Steam writes the first table again. |
| CloudRuns.InstallNeeds | bin/ullage-cloud-native.py:410-538 | A Cloud install that succeeds has saved its state, under the app's own number, and has edited an app that is there. |
| CloudRuns.TableExactly | bin/ullage-cloud-native.py:549-555 | The table a restore looks at: empty where the app has no Auto-Cloud section or no overrides, and an error where one of them is no dictionary. |
| CloudRuns.RestoreNeeds | bin/ullage-cloud-native.py:541-570 | A Cloud restore that succeeds was asked for this app and found every recorded override in force. |
| CloudRuns.SecondRestoreFile | bin/ullage-cloud-native.py:541-582 | On the file that a restore wrote before a link could not be removed, the same restore succeeds if and only if every recorded original equals the generated override, and else is refused; it never overflows. |
| CloudScripts.InstallKeepsCloud | bin/ullage-install:417-633 | A committed installation, over any earlier mapping, is such a run: what a restore gives back stays the same. |
| CloudScripts.FailureKeepsCloud | bin/ullage-install:365-434 | A failed installation keeps the Cloud world safe if and only if every link that stays of the new mapping was there at first or is owned, with its target, by the recorded one. |
| CloudScripts.RemoveKeepsCloud | bin/ullage-remove:80-108 | A removal that succeeds leaves the first overrides and links; one that fails keeps the Cloud world safe. |
| RuntimeRuns.StagedVerifies | bin/ullage-runtime.py:747-775 | A copy of a tree that passes verification passes it too, and with its manifest and provenance it is ready under the stricter check of installed packages, under its own path. |
| RuntimeRuns.ActivateSound | bin/ullage-runtime.py:552-571 | Activating an installed package makes it current and keeps the history valid, distinct and at most 16 long. |
| RuntimeRuns.ActivateWithSound | bin/ullage-runtime.py:552-571 | So does an activation one of whose writes fails, with the package before still current; if that changed anything, the history is headed by another package than the current one if and only if both writes succeeded. |
| RuntimeRuns.InterruptedHead | bin/ullage-runtime.py:552-571 | The input that shows it: in any sound store, an activation of another package whose pointer write alone fails leaves the current package at the head of the history. |
| RuntimeRuns.InstallSound | bin/ullage-runtime.py:709-777 | Whatever an install meets, it keeps the store sound, rewrites no installed package and keeps a ready current package ready; one that succeeds leaves a verified package current. |
| RuntimeRuns.RollbackSound | bin/ullage-runtime.py:820-858 | So does a rollback, which changes no package at all. |
| RuntimeRuns.EveryRun | bin/ullage-runtime.py:545-858 | From an empty state, over every run of installs, rollbacks, failing writes and damage to artifacts: the history holds at most 16 distinct valid pointers to installed packages with the digests they name, and no installed identity is ever rewritten; without damage the current package, if any, is ready; unless a pointer write failed after its history write, the history is headed by another package. |
| RuntimeRuns.RollbackUndoesRollback | bin/ullage-runtime.py:820-858 | After a default rollback that succeeds another one succeeds and makes the starting package current again, however many entries were skipped or cut and whatever activation was cut short before. |
| Genuine.VerifiesExactly | bin/ullage-runtime.py:89-210 | In bytes: a verification is ready if and only if the manifest has plain names, distinct paths, hexadecimal digests and the four required artifacts, and every listed artifact is a regular file of the listed size and digest. |
| Genuine.InstalledExactly | bin/ullage-runtime.py:574-607 | A named package is ready if and only if it is installed under plain names, its bridge is no link, its artifacts are so, and its provenance names its very manifest. |
| Genuine.CurrentExactly | bin/ullage-runtime.py:610-658 | The current package is ready if and only if the pointer file names such a package and the digest of its manifest. |
| Genuine.InstallsExactly | bin/ullage-runtime.py:709-777 | An install succeeds if and only if the source verifies, what is installed under its name is ready under the same manifest digest, or nothing is and the copies succeed, and the needed writes succeed. |
| Genuine.InstallsGenuine | bin/ullage-runtime.py:709-777 | Then the current package is ready, under a manifest of the same digest. |
| Genuine.StagesExactly | bin/ullage-runtime.py:747-756 | A new package holds the listed artifacts of the source and nothing else. |
| Genuine.DamageRefused | bin/ullage-runtime.py:574-607 | One artifact replaced by other bytes, and the package is not ready, a rollback to it is refused, a default one does not choose it, and while it is current none succeeds. |
| Genuine.RollsBackExactly | bin/ullage-runtime.py:820-858 | A rollback succeeds if and only if the current package is ready, the named one is, or one of the history that is not current and still has its manifest digest, and the writes succeed; a default one takes the latest of those. |
| Genuine.PointerExactly | bin/ullage-runtime.py:522-538 | A stored pointer counts if and only if it has the schema, plain names and a hexadecimal digest. |
| Genuine.EntriesExactly | bin/ullage-runtime.py:545-549 | The history is read entry by entry: each valid one counts, in order, whatever stands around it. |
| Genuine.HistoryExactly | bin/ullage-runtime.py:552-571 | An activation of another package puts the old one first, then the others in order without it, sixteen in all. |
| Genuine.AlwaysGenuine | bin/ullage-runtime.py:545-858 | Over every run without damage the current package, if any, is genuine in every artifact. |
| RuntimeStore.PackageStore.Verify | bin/ullage-runtime.py:153-210 | The loop over the artifacts reports exactly the specified verdict and identity. |
| RuntimeStore.PackageStore.ReadHistory | bin/ullage-runtime.py:545-549 | Exactly the valid pointers of the file, in order. |
| RuntimeStore.PackageStore.ActivatePackage | bin/ullage-runtime.py:552-571 | History and pointer files become exactly the specified ones, whichever of the two writes fails. |
| RuntimeStore.PackageStore.CopyArtifacts | bin/ullage-runtime.py:750-755 | The copying loop stages exactly the listed artifacts. |
| RuntimeStore.PackageStore.InstallManifest | bin/ullage-runtime.py:709-777 | Store and result are exactly the specified ones; an activation that fails leaves the new package installed. |
| RuntimeStore.PackageStore.RollbackTo | bin/ullage-runtime.py:820-858 | Store and result are exactly the specified ones, also when a write fails. |
| Forwarder.StageFails | bin/ullage-runtime.py:897-914 | A stage that fails or refuses leaves target and backup as they were if and only if it had not already moved a dangling link. |
| Forwarder.DanglingLost | bin/ullage-runtime.py:907-914 | The input that shows it: a dangling link and a failing copy leave the link in the backup only. |
| Forwarder.RestoreFails | bin/ullage-runtime.py:933-946 | The same for a restore, whose failure loses a dangling link that stood at the target. |
| Forwarder.DanglingGone | bin/ullage-runtime.py:933-946 | The input that shows it: a dangling link at the target and a failing second move leave the link nowhere. |
| Forwarder.StagesThenRestore | bin/ullage-runtime.py:864-947 | From a file and no backup, after any stages of any packages failing anywhere: if none changed the target nothing changed; otherwise one restore brings the first original back and leaves no backup, or fails and changes nothing. |
| Forwarder.PrefixFiles.StageForwarder | bin/ullage-runtime.py:864-922 | The file operations leave exactly the specified target and backup and no temporary file. |
| Forwarder.PrefixFiles.RestoreForwarder | bin/ullage-runtime.py:925-947 | The file operations leave exactly the specified target and backup and no temporary file. |
| SaveRules.ParseTokens | bin/ullage-cloud-native.py:234-253 | The parsing loop computes the specified dictionary and index. |
| SaveRules.ParsePrint | bin/ullage-cloud-native.py:234-253 | Parsing the tokens of a tree with distinct keys and no bare braces gives the tree and the index past its closing brace, at any place in a longer list. |
| SaveRules.ParseAgain | bin/ullage-cloud-native.py:234-253 | Conversely everything the parser returns is such a tree. |
| SaveRules.DocumentRoundTrip | bin/ullage-cloud-native.py:256-269 | A document is a name and one dictionary; anything after it is refused. |
| Templates.StripsExactly | bin/ullage-cloud-native.py:278-279 | The slashes at both ends of a rule's path do not count, and no others are dropped. |
| Templates.ExpandPlain | bin/ullage-cloud-native.py:278-279 | A path without placeholders stays as it is. |
| Templates.PlaceholderMeans | bin/ullage-cloud-native.py:272-279 | A placeholder in braces stands for any text without a slash, and what is before and after it for what they mean alone. |
| Globs.TranslateMeans | bin/ullage-cloud-native.py:272-275 | The regular expression of a glob matches exactly what the glob means: a star any text without a slash, a question mark one character that is no slash. |
| Globs.PlainRule | bin/ullage-cloud-native.py:282-295 | A rule that is not recursive matches exactly the parents with as many segments as its path, segment by segment. |
| Globs.RecursiveRule | bin/ullage-cloud-native.py:282-295 | A recursive rule with a path matches exactly the parents whose leading segments match it and that hold no newline after them. |
| Globs.NewlineMissed | bin/ullage-cloud-native.py:282-295 | The input that shows it: the path a, recursive, does not match the parent a followed by a slash and a newline, though its leading segment does. |
| Globs.RuleMeans | bin/ullage-cloud-native.py:278-295 | For names without newlines a whole rule is decided by the segments of the parent and the library's match of the file name. |

## Left out

- The textual rendering of a record and both checksums are uninterpreted functions; SHA-256 is one whose values are 64 lower-case hexadecimal digits.
- Parameters: the clock, process identifiers, the running Steam client, which depot files exist, `str.lower`, `str()` of values that are not texts, `fnmatch`, JSON parsing and printing, where a Cloud root or link lies, and which file operations fail.
- JSON states are modelled with their fields present and typed as the tool writes them, executables and configs as any value; a malformed state counts as an unreadable file. The single-entry form of a launch state is read as a list of one.
- Crashes by AttributeError or TypeError on sections that are not dictionaries are errors like the ones the code raises on purpose: the file stays, only the message differs.
- Python's recursion limit on nested dictionaries, and lone surrogates.
- Aliasing of dictionaries in memory: an edit replaces the sections of one record.
- Lifecycle.EveryRun: asks that the keys and texts of the native launch section be storable, because Steam's refresh may bring a file with any other string pool.
- Installer.Transaction.Rollback: does not promise the Steam client manifest, which the script does not put back, nor the removal of the launcher plan file, which it leaves. The trap's own commands, but for the Cloud restore, are assumed to succeed, while a failing one would cut the trap short.
- Installer.Transaction.Install: starts at the trap; what comes before it leaves the lasting files alone. A failing command does nothing, so a Cloud restore that gives up on a link halfway counts as not run; `mv` and the flag set after it are one step, and signals are not modelled.
- Remover.Removal.Remove: starts with the copies and does not model the `state-launchers` listing as a file; a failing command does nothing, and the commands of its trap are assumed to succeed.
- AppInfoFile.AppInfo.RestoreState: the per-entry results, which the command only prints, and the object after an error in the applying or the rewriting, which the command throws away.
- Commands.PatchAllCommand: only with `--disable-unsupported`, as the install script always calls it; the launcher paths, which it copies into the state for other tools to show or move, are not kept there.
- Commands.PatchCommand: the launcher path is not kept in the state either.
- Cloud.NextKeyIsNext: keys of digits outside ASCII, which `isdigit` accepts and `int` reads or refuses, count as not numeric.
- CloudFiles.NextOverrideKey: the same.
- CloudFiles.Adapter.Install: directories created for targets and links stay; writing the image, seeding save files from the local remote cache and writing the state count as one step that may fail, since a failure of any of them is undone alike.
- A write that fails leaves the file it would replace, but for the image in a Cloud restore, which may be cut.
- CloudLife.EveryRun: asks that the keys and texts of the first overrides be storable, as Lifecycle.EveryRun does of the launch section, and lets no one else change links.
- RuntimeStore.PackageStore.InstallManifest: one flag says whether the copies into the temporary directory succeed.
- Mapping.Inspect: takes the parsed state; the legacy and the multi-entry form are one.
- The unused single-entry `restore_launch`, the listing commands, and the command-line parsers.
- Downloading, archives and the release index; symbolic links inside packages, permissions, timestamps and fsync.
- `bin/ullage-bridge`, `bin/ullage-reap`, `bin/ullage`, `bin/ullage-host-runtime.py`, `bin/ullage-path.py`, `bin/ullage-steam-client.py`, `src/` and `tools/`: decided by the operating system and foreign libraries, or filters that would only add easy members.
