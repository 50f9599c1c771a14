# youtube-ma archiver: naming rules, the single-ID run and the per-ID job

youtube-ma archives YouTube videos: it stores each video's title, description,
annotations and thumbnail in a directory sharded by the first character of
the video ID. This project models two sequential pieces of it and proves
properties about them.

- **Naming** (`naming.dfy`). These are pure string functions:
  - the storage directory `firstChar + "/" + ID + "/"`;
  - title normalisation, which replaces every space by `_`;
  - the three artifact file names `Path + ID + "_" + Title + suffix`;
  - the maximum-resolution thumbnail URL;
  - the description text, which joins the texts of the description paragraphs.
- **GoFmt** (`gofmt.dfy`). It models what Go's `fmt.Fprintf(w, text)` writes
  when the text is used as the format and no operands follow. writeFiles
  does this.
- **SingleVideo** (`single_video.dfy`). It models the older single-ID
  program:
  - a `Video` class whose fields genPath, parseHTML, fetchAnnotations and
    writeFiles update in place;
  - a `Disk` class holding directories and file contents;
  - `RunSingle`, which threads the record through the five stages of `main`.
    Each stage ends the process when it fails.
  - The network replies and the parsed page are inputs, gathered in a
    `World` value.
- **Archive** (`archive.dfy`). It models `archiveID` in two forms:
  - as a method over a `Store` class (archived IDs, file-system entries,
    and a ghost trace of the calls made);
  - as a closed-form specification (`JobSteps`, `JobOutcome`,
    `ArchivedAfter`, `EntriesAfter`), which the method is proved to meet.
  - The collaborators it calls are opaque. Each is given by whether it
    returned an error and by the entries it left behind.

## Model

| member | source | states |
|---|---|---|
| Naming.Normalize | youtube-ma.go:109 | the normalised title has the length of the original |
| Naming.NormalizeAt | youtube-ma.go:109 | position by position, a space becomes `_` and every other character is unchanged |
| Naming.NormalizeIsReplaceAll | youtube-ma.go:51 | normalisation equals the pointwise replace-all of `" "` by `"_"` |
| Naming.NormalizeHasNoSpace | youtube-ma.go:109 | no space survives normalisation |
| Naming.NormalizeFixesSpaceFree | youtube-ma.go:51 | a title with no space is left exactly as it is |
| Naming.NormalizeIdempotent | youtube-ma.go:51 | normalising twice gives the same title as normalising once, so writeFiles' second replacement changes nothing |
| Naming.NormalizeConcat | youtube-ma.go:109 | normalising a concatenation normalises each part separately |
| Naming.ExampleTitle | youtube-ma.go:109 | `Test Clip` normalises to `Test_Clip` |
| Naming.StoragePath | youtube-ma.go:116-117 | the path starts with the shard directory (the ID's first character and `/`), is 3 longer than the ID and ends in `/`; an empty ID is refused, as `ID[:1]` panics |
| Naming.StoragePathShape | youtube-ma.go:117 | the path is the first character, `/`, the whole ID, then `/` |
| Naming.StoragePathRoundTrip | youtube-ma.go:117 | the ID can be read back from its storage path |
| Naming.StoragePathInjective | youtube-ma.go:117 | two IDs share a storage path if and only if they are equal |
| Naming.SameShard | youtube-ma.go:116-117 | an ID's path lies in another ID's shard if and only if the two share their first character |
| Naming.ExamplePath | youtube-ma.go:116-117 | `abc123` is stored under `a/abc123/` |
| Naming.ExampleJoin | youtube-ma.go:52 | the stem for path `a/abc123/`, ID `abc123` and title `Test_Clip` is `a/abc123/abc123_Test_Clip` |
| Naming.ExampleStem | youtube-ma.go:109-117 | for ID `abc123` and title `Test Clip`: the directory and the stem every artifact name starts with |
| Naming.ExampleArtifactNames | youtube-ma.go:52 | the three file names of the worked example, in full |
| Naming.ArtifactStem | youtube-ma.go:52 | the common stem `Path + ID + "_" + Title` is one character longer than its three parts together |
| Naming.AnnotationsFile | youtube-ma.go:52 | the annotations file name is the stem plus the 16 characters of `.annotations.xml` |
| Naming.DescriptionFile | youtube-ma.go:58 | the description file name is the stem plus the 12 characters of `.description` |
| Naming.ThumbnailFile | youtube-ma.go:70 | the thumbnail file name is the stem plus the 4 characters of `.jpg` |
| Naming.ArtifactsShareStem | youtube-ma.go:52 | the annotations, description and thumbnail names all start with `Path + ID + "_" + Title` |
| Naming.ArtifactsDistinct | youtube-ma.go:58 | the three artifact names are pairwise different |
| Naming.ArtifactNamesHaveNoSpace | youtube-ma.go:70 | with a space-free ID and a normalised title, no artifact name contains a space |
| Naming.ThumbnailUrl | archive.go:32 | the URL starts with `http://i3.ytimg.com/vi/`, ends with `/maxresdefault.jpg` and has the ID in between |
| Naming.ThumbnailUrlRoundTrip | archive.go:32 | the ID can be read back from the thumbnail URL |
| Naming.ThumbnailUrlInjective | archive.go:32 | two IDs share a thumbnail URL if and only if they are equal |
| Naming.Concat | youtube-ma.go:99-111 | joining no texts gives nothing, and the joined description is never shorter than any one paragraph |
| Naming.ConcatAppend | youtube-ma.go:100-102 | joining a split list of texts is joining each part and concatenating the results |
| Naming.ConcatPrefix | youtube-ma.go:100-102 | every state of the buffer while the paragraphs are written is a prefix of the final description |
| Naming.JoinTexts | youtube-ma.go:92-102 | the buffer loop yields exactly the ordered join of the paragraph texts |
| GoFmt.SkipFlags | youtube-ma.go:64 | flag scanning stays within the format text, passes only flag characters, and stops at the first character that is not one (or at the end) |
| GoFmt.SkipDigits | youtube-ma.go:64 | width and precision scanning stays within the format text, passes only decimal digits, and stops at the first non-digit (or at the end) |
| GoFmt.VerbIndex | youtube-ma.go:64 | a directive's verb lies after its `%` and within the text |
| GoFmt.FormatNoArgs | youtube-ma.go:64-65 | what `Fprintf` writes for a text used as format with no operands: something exactly when the text is not empty, and a `%` whenever the text holds one |
| GoFmt.FormatWithoutPercent | youtube-ma.go:64-65 | text with no `%` is written unchanged |
| GoFmt.PlainPrefix | youtube-ma.go:64-65 | a prefix with no `%` is copied before the rest is formatted |
| GoFmt.MissingOperand | youtube-ma.go:65 | `% free` is written as `%!f(MISSING)ree` |
| GoFmt.DoublePercentCollapses | youtube-ma.go:64 | an annotation text `50%%` is written as `50%` |
| GoFmt.PercentSignMangled | youtube-ma.go:65 | a description `100% free` is written as `100%!f(MISSING)ree` |
| GoFmt.Spelled | youtube-ma.go:65 | the literal spelling of the mangled description, `100` then `%!f(MISSING)ree` |
| SingleVideo.Disk.Create | youtube-ma.go:52 | after os.Create, the named file exists and is empty, and nothing else changes |
| SingleVideo.Disk.Write | youtube-ma.go:64-65 | the named file holds exactly the written content, and nothing else changes |
| SingleVideo.Video.constructor | youtube-ma.go:130-132 | a new record holds the ID and empty fields |
| SingleVideo.Video.GenPath | youtube-ma.go:115-126 | the path becomes the storage path. The directory and its shard are created only when the path is missing; the process exits exactly when the path is missing and mkdir fails. Files are untouched. |
| SingleVideo.GenPathTwice | youtube-ma.go:118-124 | two genPath calls leave the storage path; when the first does not exit, the second does not exit either, and the directories are exactly those the first call left |
| SingleVideo.Video.ParseHTML | youtube-ma.go:91-113 | exit exactly on a failed fetch. Otherwise the thumbnail becomes `og:image`, the title becomes normalised `og:title`, and the description becomes the ordered join of the paragraph texts. The ID, path and annotations are unchanged. |
| SingleVideo.Video.FetchAnnotations | youtube-ma.go:27-48 | exit on a transport error, or on a 200 reply whose body could not be read. Annotations change only on a readable 200 reply; every other field is unchanged. |
| SingleVideo.Video.WriteFiles | youtube-ma.go:50-66 | the corrected writeFiles (see Findings): the title is normalised again. Exit exactly when a create fails. The annotations file is created first and left empty if the description file cannot be created; otherwise both files hold the record's annotations and description verbatim. |
| SingleVideo.Video.WriteFilesAsWritten | youtube-ma.go:50-66 | writeFiles as written: the same title, exits and creates, but the files hold what `Fprintf` writes with the annotations and the description as formats; that equals the corrected result whenever neither text contains `%` |
| SingleVideo.Video.CreateAndWrite | youtube-ma.go:52-65 | the annotations file is created, then the description file, stopping at the first failed create; when both exist they hold the two given texts, and no directory changes |
| SingleVideo.Video.DownloadThumbnail | youtube-ma.go:68-89 | exit unless the `.jpg` file was created and the whole body was copied. After a create, the file holds nothing, the full body, or the partially copied part. |
| SingleVideo.StagesRun | youtube-ma.go:128-144 | between one and five stages run |
| SingleVideo.AnnotationsText | youtube-ma.go:36-46 | the annotations a run writes are either empty or the reply body, and empty unless the status is 200 |
| SingleVideo.RunSingle | youtube-ma.go:128-144 | using the corrected writeFiles, the stages entered are a prefix of genPath, parseHTML, downloadThumbnail, fetchAnnotations, writeFiles, cut at the first one that exits. A run that does not exit leaves the directory, plus the thumbnail, annotations and description files under the title normalised by parseHTML, holding the downloaded body, the 200-reply body (or nothing), and the joined paragraphs; every other file is as it was. Whether or not it exits, a run only adds the shard and the storage directory, removes no file, and a run that stops at genPath or parseHTML leaves the files untouched. |
| SingleVideo.ArtifactsAfterWrite | youtube-ma.go:64-70 | writing the annotations and description files leaves the thumbnail file's content as it was |
| Archive.FailedAt | archive.go:51-80 | every content stage before the returned index succeeded, and the stage at that index failed (4 means none failed) |
| Archive.ContentSteps | archive.go:51-82 | the content phase starts with parseHTML and ends with the removal of the video's path when a stage failed, or with the completion line |
| Archive.ContentCreated | archive.go:51-80 | the content stages create nothing beyond what the four stages report |
| Archive.JobSteps | archive.go:11-83 | every job starts by opening its log file |
| Archive.JobOutcome | archive.go:11-83 | a rolled-back job names one of the four content stages, and a skipped job had its log open and its files present |
| Archive.ArchivedAfter | archive.go:37 | a job only adds to the archived set, and adds at most its own ID |
| Archive.EntriesAfter | archive.go:45-80 | a job creates no entry beyond what genPath and the content stages report |
| Archive.DirForm | archive.go:54 | the directory form of a path extends it by at most a final `/` and always ends in `/` |
| Archive.Within | archive.go:54 | an entry RemoveAll takes is the path itself or lies inside the directory it names, so it starts with the path; an empty path takes nothing |
| Archive.RemoveUnder | archive.go:54 | os.RemoveAll only ever removes entries, and an empty path removes nothing |
| Archive.RemoveAllKeepsSiblings | archive.go:54 | removing `a/abc` takes the directory `a/abc/` and its files and keeps the sibling `a/abcd/` |
| Archive.PastGenPath | archive.go:32-48 | a job past genPath has called open-log, checkFiles and genPath, then the content stages |
| Archive.ContentStageRuns | archive.go:45-80 | a content stage runs if and only if the log opened, the files were absent, genPath succeeded and every earlier content stage succeeded |
| Archive.RollbackExactlyOnContentFailure | archive.go:51-80 | a job rolls back if and only if some content stage failed after a successful genPath, and it names the first failed stage |
| Archive.RolledBackSteps | archive.go:51-80 | a rolled-back job's calls are the prefix, the content stages up to the failing one, the error line, then the removal of the video's path |
| Archive.RollbackRemovesPath | archive.go:54-78 | only a rolled-back job removes anything; it removes only the video's path, as its last call, right after logging the error |
| Archive.RollbackRemovesOnce | archive.go:51-80 | the video's path is removed exactly once in a rolled-back job and never otherwise |
| Archive.CountAfterAbsent | archive.go:54 | a step appended to calls that never made it occurs exactly once |
| Archive.JobLastStep | archive.go:11-83 | every job ends with the fatal log line, the marking of a skipped ID, the removal of the video's path or the completion line |
| Archive.JobKeepsOutsidePath | archive.go:45-80 | whatever the outcome, every entry outside the video's path is kept |
| Archive.FatalLeavesNoTrace | archive.go:38-48 | a fatal job removes nothing, marks nothing new, and ends with the fatal log line |
| Archive.MarkOnlyOnSkip | archive.go:35-42 | markIDsArchived is called if and only if the files were found present. Only a skipped job adds the ID to the archived set, and no ID is ever unmarked. |
| Archive.CompletedOnlyWhenAllSucceed | archive.go:82 | "archiving completed" is logged if and only if the job completed, which happens if and only if every collaborator succeeded |
| Archive.SkipWritesNothing | archive.go:35-42 | the skip path calls open-log, checkFiles and markIDsArchived, runs no stage, and leaves the entries as they were |
| Archive.RollbackCleansPath | archive.go:51-80 | after a rollback nothing lies under the video's path, and every entry outside it is kept, including those genPath created |
| Archive.ThumbnailSetBeforeStages | archive.go:32-35 | checkFiles, the first collaborator, already sees the record holding the maximum-resolution thumbnail URL |
| Archive.Video.constructor | archive.go:26-27 | a new record holds the ID and empty thumbnail and path |
| Archive.Store.constructor | archive.go:11 | a store starts with the given archived IDs and entries and an empty trace |
| Archive.Store.OpenLogFile | archive.go:18-21 | the log opening is recorded, and its error is reported exactly when opening failed |
| Archive.Store.CheckFiles | archive.go:35-36 | the check is recorded with the record's thumbnail URL, and an error means the files are present |
| Archive.Store.MarkIDsArchived | archive.go:37-40 | on success the ID joins the archived set; otherwise an error is returned |
| Archive.Store.GenPath | archive.go:45-48 | the path is stored in the record and genPath's entries are added |
| Archive.Store.Stage | archive.go:51-80 | a content stage is recorded and its entries are added |
| Archive.Store.RemoveAll | archive.go:54 | the path itself and every entry inside the directory it names are removed, siblings sharing only a textual prefix are kept, the call is recorded, and nothing else changes |
| Archive.Store.Log | archive.go:53 | a log line is recorded, and nothing else changes |
| Archive.ContentStage | archive.go:51-56 | a failed stage is followed by the error line and the removal of the video's path |
| Archive.ContentShape | archive.go:51-64 | the content phase's calls and entries when parseHTML fails, when fetchSubs fails, and when both succeed |
| Archive.RunContentStages | archive.go:51-82 | the four content blocks run in order and stop at the first failure. The method meets the specification's calls, outcome and entries. |
| Archive.LastCreated | archive.go:66-80 | writeFiles and downloadThumbnail create nothing beyond what they report |
| Archive.RunLastStages | archive.go:66-82 | once parseHTML and fetchSubs succeeded: the writeFiles and downloadThumbnail blocks, then the completion line, matching the specification's remaining calls, outcome and entries |
| Archive.ArchiveID | archive.go:11-83 | the calls, the outcome, the archived set and the entries equal `JobSteps`, `JobOutcome`, `ArchivedAfter` and `EntriesAfter` |

## Left out

- The network and the HTML parser are not modelled (soup.Get, soup.HTMLParse, Find, http.Get). Their results are inputs: `PageFetch`, `AnnotationsReply`, `ThumbnailReply`.
- parseHTML panics when the page has no `og:image` or `og:title` tag. This is not modelled: a fetched page always carries both.
- The thumbnail reply's HTTP status is not inspected by downloadThumbnail, and the model does not inspect it either. Any body that copies in full is written.
- Bytes are modelled as Dafny strings. No encoding conversion is modelled.
- Console output is not modelled: the coloured progress lines and the error messages. The message at youtube-ma.go:39 prints the earlier `err` rather than the read error `err2`; since messages are not modelled, neither is this.
- Wall-clock timing is not modelled.
- CLI argument handling is not modelled. `RunSingle` takes the ID as a parameter. An empty ID makes `ID[:1]` panic, so the ID must be non-empty (`requires id != []`).
- SingleVideo.Video.GenPath: os.Stat failing with an error other than "does not exist" is not modelled. In that case genPath neither creates nor exits; the model treats a path as present or absent only. A failing MkdirAll that leaves part of the path behind is also not modelled: on failure, no directory is added.
- Closing files (the deferred Close calls) is not modelled.
- The worker pool (sizedwaitgroup) and `defer worker.Done()` are not modelled. Concurrency between jobs is not modelled either: `ArchiveID` runs one job on its own.
- The per-job logger is modelled only as the log lines it records (`LogError`, `LogFatal`, `LogCompleted`). Their text, timestamps and the log file are not modelled.
- Archive.ArchiveID: the `LogFatal` after a failed log open stands for `log.Fatalln` on the standard logger (archive.go:20), not a line of the per-job logger, which does not exist yet at that point.
- Archive.Store.Stage: the opaque content stages cannot change the video record, so the model takes them to leave `video.Path` as genPath set it. The removal target in `RollbackRemovesOnce` and `RollbackRemovesPath` relies on this.
- Archive.ArchiveID: the opaque collaborators (genPath and the four content stages) are taken to remove no entry and to leave the archived set alone; only markIDsArchived adds to that set and only RemoveAll removes entries. `JobKeepsOutsidePath`, and the "only a skipped job adds the ID" part of `MarkOnlyOnSkip`, rest on this.
- Naming.StoragePath: Go's `ID[:1]` takes the first byte, the model the first character. They agree for IDs starting with an ASCII character, which every YouTube ID does; `SameShard` would not hold in Go for two IDs starting with `é` and `à`, which share their leading UTF-8 byte.
- SingleVideo.Video.WriteFiles: models the evident intent of youtube-ma.go:64-65 (a verbatim write); the code as written is `WriteFilesAsWritten`, see Findings. Fprintf's own error is ignored by the source; a short write that leaves a partial file, with the process carrying on, is not modelled.
- SingleVideo.RunSingle: runs the corrected writeFiles, so its promise about the files' contents is the intended one. With the code as written, annotations or a description containing `%` end up altered as `WriteFilesAsWritten` states.
- log.Fatalln is modelled as a terminal `Fatal` outcome. The rest of the process, and deferred calls, do not run.
- Archive.Store.RemoveAll: entries are names, with a trailing `/` on directories; RemoveAll takes the path itself and everything inside the directory it names. Path cleaning (`a//b`, `./`), symbolic links, permission failures and Go's refusal of a path ending in `.` are not modelled. Its error is ignored, as in archive.go.
- The collaborators archiveID calls are not modelled: checkFiles, markIDsArchived, fetchSubs, and the error-returning variants of genPath, parseHTML, writeFiles and downloadThumbnail. Their bodies are not part of this model. Each is given by its outcome and the entries it creates. The path genPath stores is an input. How those callees change the video record's thumbnail is unknown.
- The `InfoJSON` and `playerArgs` fields that archiveID initialises are not modelled, since nothing in the job reads them.
- GoFmt.FormatNoArgs models flags, a decimal width, a decimal precision and the verb. It does not model `*` widths, explicit argument indexes `[n]`, or Go's refusal of widths above 10^6.
- Archive.ThumbnailSetBeforeStages: only checkFiles is shown to see the URL. What the opaque stages later do with it is not stated.

## Findings

| source | as written | input that shows it | evidently intended | confidence | as-written member | corrected member |
|---|---|---|---|---|---|---|
| youtube-ma.go:64-65 | the annotations and the description are passed to `fmt.Fprintf` as the format string, with no operands | a description `100% free` is written as `100%!f(MISSING)ree` (GoFmt.PercentSignMangled); annotations holding `50%%` are written as `50%` (GoFmt.DoublePercentCollapses) | the files hold the annotations and the description verbatim (`Fprint`/`WriteString`) | high; not executed | SingleVideo.Video.WriteFilesAsWritten | SingleVideo.Video.WriteFiles |
