# dcnnt-android: settings backup and file-transfer rows, modelled in Dafny

dcnnt is an Android companion app that exchanges files, notifications and
commands with a desktop over the network. This project models two parts of it.

**Settings backup (`App`).** `dumpSettingsToFile` writes a ZIP archive holding a
timestamp marker `dcnnt.timestamp.txt`, the app config file (`conf.json`) and
every file of the device registry directory and of the plugin directory, each
under its base name. `dropSettings` deletes the config file, the device files
ending in the device extension and the plugin files ending in the plugin
suffix. `loadSettingsFromFile` unpacks an archive into an insertion-ordered map
(the last entry of a name wins), refuses an archive without the marker, and
otherwise drops the settings and writes every blob back, by an else-if chain on
its name: `conf.json` to the config path, then the device extension, then the
plugin suffix; anything else is skipped. The defaults `AppConf` declares and
their bounds are modelled as well.

**File-transfer rows (`BaseFileFragment`, `RunningFileView`).** Every selected
`FileEntry` has a status (WAIT, RUN, DONE, CANCEL, FAIL). The cancel button of a
row and the cancel-all button move WAIT and RUN to CANCEL under the entry's
lock; a cancelled WAIT row is hidden and, unless a run is in progress, removed
from the list; a cancelled RUN row shows the block icon. When a transfer ends,
`updateOnEnd` sets the row's text and icon and completes a notification whose
title, body, thumbnail and open intent depend on the status and the result.

Files:

- `wrappers.dfy`: `Option`.
- `files.dfy`: `java.io.File` as a `FileSystem` class whose `files` map each path to its bytes; base names and directory membership on path text.
- `settings.dfy`: dump, drop and restore as methods on the file system, each proved against a specification function (`DumpArchive`, `Dropped`, `Restored`).
- `settings_proofs.dfy`: what a restore leaves where, and the dump/restore round trip.
- `app_conf.dfy`: the `AppConf` entries and their defaults.
- `file_fragment.dfy`: statuses, the fragment, its rows, thumbnails, intents and completion notices.

## Model

| member | source | states |
|---|---|---|
| Files.BaseNameIsLastSegment | app/src/main/java/net/dcnnt/core/App.kt:115 | `File.name` is the longest end of the path without a '/' |
| Files.EndsWithBaseName | app/src/main/java/net/dcnnt/core/App.kt:137-138 | for a file in a directory and a suffix without '/', the full path (`"$it"`) ends with the suffix exactly when its base name does |
| Files.FileSystem.ListFiles | app/src/main/java/net/dcnnt/core/App.kt:128 | `listFiles()` returns every file directly in the directory, each once, in no fixed order |
| Files.FileSystem.ReadBytes | app/src/main/java/net/dcnnt/core/App.kt:116 | `readBytes` gives the whole file, or fails when it is missing |
| Files.FileSystem.WriteBytes | app/src/main/java/net/dcnnt/core/App.kt:153 | `writeBytes` creates or replaces exactly that file |
| Files.FileSystem.Delete | app/src/main/java/net/dcnnt/core/App.kt:136 | `delete` removes exactly that file |
| Settings.WriteFileToArchive | app/src/main/java/net/dcnnt/core/App.kt:114-120 | appends one entry named by the file's base name with its whole content; fails, appending nothing, when the file is missing |
| Settings.WriteListedFiles | app/src/main/java/net/dcnnt/core/App.kt:128-129 | appends one entry per listed file, in listing order |
| Settings.DumpSettingsToFile | app/src/main/java/net/dcnnt/core/App.kt:122-133 | fails exactly when the config file is missing; otherwise the archive is the marker, the config file, then the device files, then the plugin files, for some complete listings of the two directories |
| Settings.DeleteInDirWithSuffix | app/src/main/java/net/dcnnt/core/App.kt:137-138 | deletes exactly the files of the directory whose path ends with the suffix |
| Settings.DropSettings | app/src/main/java/net/dcnnt/core/App.kt:135-139 | the file system afterwards is the old one without the config file and the registry files, nothing else changed |
| Settings.LinkedMap.Put | app/src/main/java/net/dcnnt/core/App.kt:145 | `files[name] = bytes`: the key takes the new value, other keys keep theirs, a known key keeps its place in iteration order, a new key goes last |
| SettingsProofs.UnpackedKeysInFirstAppearanceOrder | app/src/main/java/net/dcnnt/core/App.kt:143-151 | the unpacked map iterates its names in the order of each name's first entry in the archive |
| Settings.Unpacked | app/src/main/java/net/dcnnt/core/App.kt:143-145 | the unpacked map is well formed: distinct keys in order, the same keys as the value map |
| Settings.Unpack | app/src/main/java/net/dcnnt/core/App.kt:142-145 | the loop puts every archive entry in order, giving `Unpacked(archive)` |
| Settings.Route | app/src/main/java/net/dcnnt/core/App.kt:151-159 | a blob is skipped exactly when its name is not `conf.json` and ends with neither the device extension nor the plugin suffix |
| Settings.WriteRouted | app/src/main/java/net/dcnnt/core/App.kt:151-159 | the write loop leaves exactly `ApplyWrites`: each name, in map order, written to the path its else-if chain picks, and a name no branch picks skipped |
| Settings.LoadSettingsFromFile | app/src/main/java/net/dcnnt/core/App.kt:141-161 | accepts exactly when the archive holds the marker; a refused archive leaves every file as it was; an accepted one leaves `Restored`: the dropped file system with every routed blob written in first-appearance order |
| SettingsProofs.NameKept | app/src/main/java/net/dcnnt/core/App.kt:145-147 | every entry name of the archive is a key of the unpacked map, so a marker anywhere in the archive passes the check |
| SettingsProofs.LastOccurrenceWins | app/src/main/java/net/dcnnt/core/App.kt:145 | the value under a name is the data of the last entry with that name |
| SettingsProofs.KeyFromEntry | app/src/main/java/net/dcnnt/core/App.kt:145 | every key of the unpacked map is the name of some archive entry |
| SettingsProofs.RouteInjective | app/src/main/java/net/dcnnt/core/App.kt:151-159 | on a well-formed layout no two names are written to the same file |
| SettingsProofs.RestoredAt | app/src/main/java/net/dcnnt/core/App.kt:149-159 | after a restore every routed blob's bytes are in its target file |
| SettingsProofs.RestoredElsewhere | app/src/main/java/net/dcnnt/core/App.kt:135-159 | a file no blob is routed to exists after a restore exactly when it existed and is neither the config file nor a registry file, and keeps its bytes |
| SettingsProofs.RestoreWithoutConfigDeletesIt | app/src/main/java/net/dcnnt/core/App.kt:135-159 | restoring an archive with the marker but no `conf.json` leaves no config file |
| SettingsProofs.DumpedFileUnpacked | app/src/main/java/net/dcnnt/core/App.kt:122-145 | each dumped file is found, under its base name and with its bytes, in the unpacked dump |
| SettingsProofs.DeviceFileRoutedHome | app/src/main/java/net/dcnnt/core/App.kt:154-155 | a device file's base name is written back to `dm.path/name`, that same file |
| SettingsProofs.PluginFileRoutedHome | app/src/main/java/net/dcnnt/core/App.kt:156-157 | a plugin file's base name is written back to that same file, when neither suffix ends the other |
| SettingsProofs.RoutedHome | app/src/main/java/net/dcnnt/core/App.kt:151-159 | the base name of a backed-up config or registry file is routed back to that same path |
| SettingsProofs.RoundTrip | app/src/main/java/net/dcnnt/core/App.kt:122-161 | restoring a dump is accepted and brings back the config file and every registry file byte for byte |
| SettingsProofs.AppLayoutWellFormed | app/src/main/java/net/dcnnt/core/App.kt:77-82 | the layout `init` sets up (`$directory/conf.json`, `/devices`, `/plugins`) is well formed and its config file's base name is `conf.json` |
| AppConfig.FirstChunk | app/src/main/java/net/dcnnt/core/App.kt:27-29 | `chunked(n)[0]` is the first `min(n, length)` characters, and fails on an empty string |
| AppConfig.SelectDefault | app/src/main/java/net/dcnnt/core/App.kt:35-44 | a select default given by index is the option at that index, and exists exactly when the index is in range |
| AppConfig.DefaultsAdmitted | app/src/main/java/net/dcnnt/core/App.kt:24-47 | each built default satisfies its entry's bound, given a uin draw in range and a short password text |
| AppConfig.KeysDistinct | app/src/main/java/net/dcnnt/core/App.kt:24-47 | no key is declared twice |
| AppConfig.DefaultsWithinBounds | app/src/main/java/net/dcnnt/core/App.kt:24-47 | the entries can be built exactly when `Build.DEVICE` is not empty; then every default satisfies its bound, keys are distinct, `uin` is the drawn number and both policies default to "one" |
| FileFragment.Cancelled | app/src/main/java/net/dcnnt/fragments/BaseFileFragment.kt:244-246 | WAIT and RUN become CANCEL; every other status stays as it was; the move is only forward |
| FileFragment.CancelAll | app/src/main/java/net/dcnnt/fragments/BaseFileFragment.kt:241-249 | cancel-all keeps length and order, turns every WAIT/RUN into CANCEL, keeps every other status, and leaves nothing pending |
| FileFragment.RowCancelThenCancelAll | app/src/main/java/net/dcnnt/fragments/BaseFileFragment.kt:82-106 | a row's own cancel followed by cancel-all ends as cancel-all alone |
| FileFragment.CancelAllIdempotent | app/src/main/java/net/dcnnt/fragments/BaseFileFragment.kt:241-249 | pressing cancel-all twice is the same as once |
| FileFragment.RemoveFirst | app/src/main/java/net/dcnnt/fragments/BaseFileFragment.kt:90 | `remove(entry)` leaves a list without the entry unchanged and makes a list with it one shorter |
| FileFragment.RemoveFirstAt | app/src/main/java/net/dcnnt/fragments/BaseFileFragment.kt:90 | `remove(entry)` drops exactly the first occurrence and keeps everything before and after it in order |
| FileFragment.RemoveFirstMultiset | app/src/main/java/net/dcnnt/fragments/BaseFileFragment.kt:90 | `remove(entry)` takes away exactly one copy of the entry, if present, and nothing else |
| FileFragment.LoadThumbnail | app/src/main/java/net/dcnnt/fragments/BaseFileFragment.kt:112-123 | no thumbnail above 10 MiB or without a local URI; otherwise whatever decoding gave |
| FileFragment.CreateFileIntent | app/src/main/java/net/dcnnt/fragments/BaseFileFragment.kt:58-71 | no intent without a local URI; open is a VIEW with the URI as data, share a SEND with the URI as stream and its MIME type; both grant read access |
| FileFragment.EndNotice | app/src/main/java/net/dcnnt/fragments/BaseFileFragment.kt:166-176 | a notice exactly when notifications are on; its body starts with "current/total - name"; cancelled wins over the result; success carries the thumbnail and open intent; failure appends " : message" |
| FileFragment.TapToOpenOnlyOnSuccess | app/src/main/java/net/dcnnt/fragments/BaseFileFragment.kt:166-176 | a notice carries an open intent exactly when notifications are on, the entry was not cancelled, the transfer succeeded and the file has a local URI |
| FileFragment.BaseFileFragment.constructor | app/src/main/java/net/dcnnt/fragments/BaseFileFragment.kt:185-187 | the fragment starts with no entries, no views and no run in progress |
| FileFragment.BaseFileFragment.CancelAllEntries | app/src/main/java/net/dcnnt/fragments/BaseFileFragment.kt:241-249 | the entries' statuses afterwards are `CancelAll` of those before, even when one entry is listed twice |
| FileFragment.RunningFileView.constructor | app/src/main/java/net/dcnnt/fragments/BaseFileFragment.kt:45-53 | the row shows the entry's name and size with the cancel icon and registers itself under the entry's id, replacing any earlier row for that id |
| FileFragment.RunningFileView.OnActionViewClicked | app/src/main/java/net/dcnnt/fragments/BaseFileFragment.kt:82-106 | the entry's status becomes `Cancelled` of the old one; a UI update is posted only for WAIT or RUN and only when the fragment has an activity |
| FileFragment.RunningFileView.RunHideAndRemove | app/src/main/java/net/dcnnt/fragments/BaseFileFragment.kt:87-92 | the row is hidden, and the entry leaves the list unless a run is in progress |
| FileFragment.RunningFileView.RunShowBlocked | app/src/main/java/net/dcnnt/fragments/BaseFileFragment.kt:96-98 | the row's action icon becomes the block icon, nothing else changes |
| FileFragment.RunningFileView.UpdateOnEnd | app/src/main/java/net/dcnnt/fragments/BaseFileFragment.kt:156-177 | the row's text is "size unit - message"; success shows the share icon, enables share/open and shows a loaded thumbnail, failure the block icon; the notification gains exactly the `EndNotice` |

## Left out

- The ZIP format itself (`ZipOutputStream`, `ZipInputStream`, compression, stream closing) is not modelled: an archive is a sequence of named blobs. `ZipOutputStream` refuses a second entry with the same name; the model does not, so the round trip is stated for backed-up files with distinct base names.
- A failed `readBytes` in the middle of a dump leaves a partly written entry in the real stream; the model stops with `ConfigUnreadable` for the config file and, for listed files, reads a listing taken atomically, so a file cannot vanish between listing and reading.
- Threads, `synchronized` blocks, `AtomicBoolean` and `runOnUiThread` are not modelled as concurrency: a critical section is one method, and a posted block is a `UiTask` returned to the caller and run later as its own method.
- Paths are text: no normalisation, no `..`, no symbolic links, no check that parent directories exist; subdirectories are not listed as files. `listFiles()` returning null is read as an empty listing.
- `nowString()`, `Random`, `Build` and `ByteArray.toString()` are parameters; `DCConf`, `DeviceManager`, `PluginManager`, `FileEntry`, `FileStatus`, `ProgressNotification` and `DCResult` are not part of this model beyond the fields and calls used here.
- AppConfig.DefaultsWithinBounds: assumes `IntEntry` and `StringEntry` bounds are inclusive and that `ByteArray.toString()` is shorter than 4096 characters, since those classes are not part of this model; string lengths count characters, not UTF-16 units.
- View rendering, bitmap decoding and scaling, `startActivity`, `openOrShare`, `updateThumbnail`, notification channels and the permission request are left out; `setDataAndNormalize` is taken to store the URI as given, and `mimeTypeByPath` and `fileIconByPath` are parameters or omitted.
- `processAllEntries`, `processFailedEntries`, `selectEntries` and `onSelectedDeviceChanged` are empty hooks here and are not modelled; the layout of buttons in `fragmentMainView` is left out.
- FileFragment.RemoveFirst: compares entries by reference; if `FileEntry` is a data class, Kotlin's `remove` compares by value instead.
