/** The single-ID archiver: one `Video` record threaded through genPath,
    parseHTML, downloadThumbnail, fetchAnnotations and writeFiles, each of
    which updates the record in place and ends the process (`os.Exit(1)`)
    on an error.  The network and the HTML parser are replaced by the
    results they deliver; the file system by a `Disk` object. */
module SingleVideo {
  import opened Naming
  import opened GoFmt

  /** What soup.Get and the HTML parser deliver for the watch page. */
  datatype Page = Page(paragraphs: seq<string>, ogImage: string, ogTitle: string)
  datatype PageFetch = PageFailed | PageFetched(page: Page)

  /** The annotations request: a transport error, or a status code and a body
      that could (`readOk`) or could not be read in full. */
  datatype AnnotationsReply = AnnotationsFailed | AnnotationsReply(status: int, body: string, readOk: bool)

  /** The thumbnail request: a transport error, a body copied in full, or a
      copy that failed after writing `partial`. */
  datatype ThumbnailReply = ThumbnailFailed | ThumbnailCopied(data: string) | ThumbnailCopyFailed(partial: string)

  /** Every outcome the outside world can give one single-ID run. */
  datatype World = World(
    mkdirOk: bool,
    page: PageFetch,
    createThumbnailOk: bool,
    thumbnail: ThumbnailReply,
    annotations: AnnotationsReply,
    createAnnotationsOk: bool,
    createDescriptionOk: bool)

  /** The stages of `main`, in the order they are announced. */
  datatype Stage = GenPath | ParseHTML | DownloadThumbnail | FetchAnnotations | WriteFiles

  const StatusOK: int := 200

  /** The stage order of `main`. */
  const MainStages: seq<Stage> := [GenPath, ParseHTML, DownloadThumbnail, FetchAnnotations, WriteFiles]

  /** The directories and the files (by name, with their contents) on disk. */
  class Disk {
    var dirs: set<string>
    var files: map<string, string>

    constructor (dirs: set<string>, files: map<string, string>)
      ensures this.dirs == dirs && this.files == files
    {
      this.dirs := dirs;
      this.files := files;
    }

    /** os.Create: the file exists and is empty. */
    method Create(name: string)
      modifies this
      ensures dirs == old(dirs) && files == old(files)[name := ""]
    {
      files := files[name := ""];
    }

    /** Writing the whole content of an open file. */
    method Write(name: string, content: string)
      modifies this
      ensures dirs == old(dirs) && files == old(files)[name := content]
    {
      files := files[name := content];
    }
  }

  /** The metadata record of one video. */
  class Video {
    var id: string
    var title: string
    var annotations: string
    var thumbnail: string
    var description: string
    var path: string

    /** `new(Video)` followed by `video.ID = ...`. */
    constructor (id: string)
      ensures this.id == id
      ensures title == "" && annotations == "" && thumbnail == "" && description == "" && path == ""
    {
      this.id := id;
      title, annotations, thumbnail, description, path := "", "", "", "", "";
    }

    /** genPath: sets `path` to the sharded storage directory and creates it
        (with its shard directory) only when it does not exist yet. */
    method GenPath(disk: Disk, mkdirOk: bool) returns (exit: bool)
      requires id != []
      modifies this, disk
      ensures id == old(id) && title == old(title) && annotations == old(annotations)
      ensures path == StoragePath(id)
      ensures thumbnail == old(thumbnail) && description == old(description)
      ensures exit <==> StoragePath(id) !in old(disk.dirs) && !mkdirOk
      ensures disk.dirs == if StoragePath(id) in old(disk.dirs) || !mkdirOk then old(disk.dirs)
                           else old(disk.dirs) + {Shard(id), StoragePath(id)}
      ensures disk.files == old(disk.files)
    {
      path := StoragePath(id);
      exit := false;
      if path !in disk.dirs {
        if mkdirOk {
          disk.dirs := disk.dirs + {Shard(id), path};
        } else {
          exit := true;
        }
      }
    }

    /** parseHTML: thumbnail from `og:image`, normalised title from
        `og:title`, description from the paragraphs' texts in order. */
    method ParseHTML(fetch: PageFetch) returns (exit: bool)
      modifies this
      ensures exit <==> fetch.PageFailed?
      ensures id == old(id) && path == old(path) && annotations == old(annotations)
      ensures exit ==> title == old(title) && thumbnail == old(thumbnail) && description == old(description)
      ensures !exit ==> thumbnail == fetch.page.ogImage
                        && title == Normalize(fetch.page.ogTitle)
                        && description == Concat(fetch.page.paragraphs)
    {
      if fetch.PageFailed? {
        return true;
      }
      var buffer := JoinTexts(fetch.page.paragraphs);
      thumbnail := fetch.page.ogImage;
      title := Normalize(fetch.page.ogTitle);
      description := buffer;
      exit := false;
    }

    /** fetchAnnotations: only a 200 reply whose body was read replaces the
        annotations; any other status leaves them as they were. */
    method FetchAnnotations(reply: AnnotationsReply) returns (exit: bool)
      modifies this
      ensures exit <==> reply.AnnotationsFailed? || (reply.status == StatusOK && !reply.readOk)
      ensures id == old(id) && title == old(title) && thumbnail == old(thumbnail)
      ensures description == old(description) && path == old(path)
      ensures annotations == if !exit && reply.status == StatusOK then reply.body else old(annotations)
    {
      if reply.AnnotationsFailed? {
        return true;
      }
      exit := false;
      if reply.status == StatusOK {
        if !reply.readOk {
          return true;
        }
        annotations := reply.body;
      }
    }

    /** writeFiles, with the evident intent of lines 64-65: normalises the
        title again, creates the annotations file and then the description
        file, and writes the annotations and the description into them
        verbatim. */
    method WriteFiles(disk: Disk, createAnnotationsOk: bool, createDescriptionOk: bool) returns (exit: bool)
      modifies this, disk
      ensures title == Normalize(old(title))
      ensures id == old(id) && annotations == old(annotations) && thumbnail == old(thumbnail)
      ensures description == old(description) && path == old(path)
      ensures exit <==> !createAnnotationsOk || !createDescriptionOk
      ensures disk.dirs == old(disk.dirs)
      ensures var a := AnnotationsFile(path, id, title);
              var d := DescriptionFile(path, id, title);
              disk.files == if !createAnnotationsOk then old(disk.files)
                            else if !createDescriptionOk then old(disk.files)[a := ""]
                            else old(disk.files)[a := annotations][d := description]
    {
      title := Normalize(title);
      exit := CreateAndWrite(disk, createAnnotationsOk, createDescriptionOk, annotations, description);
    }

    /** writeFiles as written: the annotations and the description are used
        as `Fprintf` formats, so the files hold what the format writes with
        no operands.  That is the verbatim text whenever neither contains a
        `%`. */
    method WriteFilesAsWritten(disk: Disk, createAnnotationsOk: bool, createDescriptionOk: bool) returns (exit: bool)
      modifies this, disk
      ensures title == Normalize(old(title))
      ensures id == old(id) && annotations == old(annotations) && thumbnail == old(thumbnail)
      ensures description == old(description) && path == old(path)
      ensures exit <==> !createAnnotationsOk || !createDescriptionOk
      ensures disk.dirs == old(disk.dirs)
      ensures var a := AnnotationsFile(path, id, title);
              var d := DescriptionFile(path, id, title);
              disk.files == if !createAnnotationsOk then old(disk.files)
                            else if !createDescriptionOk then old(disk.files)[a := ""]
                            else old(disk.files)[a := FormatNoArgs(annotations)][d := FormatNoArgs(description)]
      ensures '%' !in annotations && '%' !in description ==>
                var a := AnnotationsFile(path, id, title);
                var d := DescriptionFile(path, id, title);
                disk.files == if !createAnnotationsOk then old(disk.files)
                              else if !createDescriptionOk then old(disk.files)[a := ""]
                              else old(disk.files)[a := annotations][d := description]
    {
      title := Normalize(title);
      var annotationsText := FormatNoArgs(annotations);
      var descriptionText := FormatNoArgs(description);
      if '%' !in annotations && '%' !in description {
        FormatWithoutPercent(annotations);
        FormatWithoutPercent(description);
      }
      exit := CreateAndWrite(disk, createAnnotationsOk, createDescriptionOk, annotationsText, descriptionText);
    }

    /** The file work of writeFiles under the current title: create the
        annotations file, then the description file, exiting on the first
        create that fails, then write the two texts into them. */
    method CreateAndWrite(disk: Disk, createAnnotationsOk: bool, createDescriptionOk: bool,
                          annotationsText: string, descriptionText: string) returns (exit: bool)
      modifies disk
      ensures exit <==> !createAnnotationsOk || !createDescriptionOk
      ensures disk.dirs == old(disk.dirs)
      ensures var a := AnnotationsFile(path, id, title);
              var d := DescriptionFile(path, id, title);
              disk.files == if !createAnnotationsOk then old(disk.files)
                            else if !createDescriptionOk then old(disk.files)[a := ""]
                            else old(disk.files)[a := annotationsText][d := descriptionText]
    {
      var a := AnnotationsFile(path, id, title);
      if !createAnnotationsOk {
        return true;
      }
      disk.Create(a);
      var d := DescriptionFile(path, id, title);
      if !createDescriptionOk {
        return true;
      }
      disk.Create(d);
      disk.Write(a, annotationsText);
      disk.Write(d, descriptionText);
      ArtifactsDistinct(path, id, title);
      assert old(disk.files)[a := ""][d := ""][a := annotationsText][d := descriptionText]
          == old(disk.files)[a := annotationsText][d := descriptionText];
      exit := false;
    }

    /** downloadThumbnail: creates the `.jpg` artifact, then fills it with
        the thumbnail's body; the file stays behind when a later step fails. */
    method DownloadThumbnail(disk: Disk, createOk: bool, reply: ThumbnailReply) returns (exit: bool)
      modifies disk
      ensures exit <==> !createOk || !reply.ThumbnailCopied?
      ensures disk.dirs == old(disk.dirs)
      ensures var f := ThumbnailFile(path, id, title);
              disk.files == if !createOk then old(disk.files)
                            else match reply
                                 case ThumbnailFailed => old(disk.files)[f := ""]
                                 case ThumbnailCopied(data) => old(disk.files)[f := data]
                                 case ThumbnailCopyFailed(partial) => old(disk.files)[f := partial]
    {
      var f := ThumbnailFile(path, id, title);
      if !createOk {
        return true;
      }
      disk.Create(f);
      match reply
      case ThumbnailFailed =>
        exit := true;
      case ThumbnailCopied(data) =>
        disk.Write(f, data);
        exit := false;
      case ThumbnailCopyFailed(partial) =>
        disk.Write(f, partial);
        exit := true;
    }
  }

  /** How many stages of `main` run before the process stops (all five when
      none fails). */
  function StagesRun(id: string, dirs: set<string>, w: World): (n: nat)
    requires id != []
    ensures 1 <= n <= |MainStages|
  {
    if StoragePath(id) !in dirs && !w.mkdirOk then 1
    else if w.page.PageFailed? then 2
    else if !w.createThumbnailOk || !w.thumbnail.ThumbnailCopied? then 3
    else if w.annotations.AnnotationsFailed? || (w.annotations.status == StatusOK && !w.annotations.readOk) then 4
    else 5
  }

  /** The annotations a successful run writes: the body of a 200 reply, the
      empty string otherwise. */
  function AnnotationsText(w: World): (text: string)
    requires w.annotations.AnnotationsReply?
    ensures text == "" || text == w.annotations.body
    ensures w.annotations.status != StatusOK ==> text == ""
  {
    if w.annotations.status == StatusOK then w.annotations.body else ""
  }

  /** `main`: genPath, parseHTML, downloadThumbnail, fetchAnnotations,
      writeFiles, stopping at the first stage that exits.  `ran` lists the
      stages entered.  When no stage exits, the three artifacts sit in the
      video's storage directory under one stem built from the title as
      parseHTML normalised it. */
  method RunSingle(id: string, disk: Disk, w: World) returns (ran: seq<Stage>, exited: bool)
    requires id != []
    modifies disk
    ensures ran == MainStages[..StagesRun(id, old(disk.dirs), w)]
    ensures exited <==> |ran| < |MainStages| || !w.createAnnotationsOk || !w.createDescriptionOk
    ensures !exited ==>
              var p := StoragePath(id);
              var title := Normalize(w.page.page.ogTitle);
              && p in disk.dirs
              && ThumbnailFile(p, id, title) in disk.files
              && disk.files[ThumbnailFile(p, id, title)] == w.thumbnail.data
              && AnnotationsFile(p, id, title) in disk.files
              && disk.files[AnnotationsFile(p, id, title)] == AnnotationsText(w)
              && DescriptionFile(p, id, title) in disk.files
              && disk.files[DescriptionFile(p, id, title)] == Concat(w.page.page.paragraphs)
    ensures old(disk.dirs) <= disk.dirs <= old(disk.dirs) + {Shard(id), StoragePath(id)}
    ensures old(disk.files).Keys <= disk.files.Keys
    ensures |ran| <= 2 ==> disk.files == old(disk.files)
    ensures !exited ==>
              var p := StoragePath(id);
              var title := Normalize(w.page.page.ogTitle);
              disk.files == old(disk.files)[ThumbnailFile(p, id, title) := w.thumbnail.data]
                                           [AnnotationsFile(p, id, title) := AnnotationsText(w)]
                                           [DescriptionFile(p, id, title) := Concat(w.page.page.paragraphs)]
  {
    var video := new Video(id);
    ran := [GenPath];
    exited := video.GenPath(disk, w.mkdirOk);
    if exited {
      return;
    }
    ran := ran + [ParseHTML];
    exited := video.ParseHTML(w.page);
    if exited {
      return;
    }
    ran := ran + [DownloadThumbnail];
    exited := video.DownloadThumbnail(disk, w.createThumbnailOk, w.thumbnail);
    if exited {
      return;
    }
    ghost var afterThumbnail := disk.files;
    ran := ran + [FetchAnnotations];
    exited := video.FetchAnnotations(w.annotations);
    if exited {
      return;
    }
    ran := ran + [WriteFiles];
    ghost var parsedTitle := video.title;
    exited := video.WriteFiles(disk, w.createAnnotationsOk, w.createDescriptionOk);
    if !exited {
      NormalizeIdempotent(w.page.page.ogTitle);
      assert video.title == parsedTitle;
      ArtifactsAfterWrite(afterThumbnail, video.path, id, video.title, video.annotations, video.description);
    }
  }

  /** The files a successful run leaves: the thumbnail written first keeps its
      content once the annotations and description files are written. */
  lemma ArtifactsAfterWrite(files: map<string, string>, p: string, id: string, title: string,
                            annotations: string, description: string)
    requires ThumbnailFile(p, id, title) in files
    ensures var after := files[AnnotationsFile(p, id, title) := annotations][DescriptionFile(p, id, title) := description];
            && after[ThumbnailFile(p, id, title)] == files[ThumbnailFile(p, id, title)]
            && after[AnnotationsFile(p, id, title)] == annotations
            && after[DescriptionFile(p, id, title)] == description
  {
    ArtifactsDistinct(p, id, title);
  }

  /** Calling genPath a second time keeps the same path; once the first call
      did not exit, the second one does not exit either and adds no
      directory, whether or not a directory could now be created. */
  method GenPathTwice(video: Video, disk: Disk, mkdirOk: bool, againOk: bool) returns (first: bool, again: bool)
    requires video.id != []
    modifies video, disk
    ensures video.id == old(video.id) && video.path == StoragePath(video.id)
    ensures !first ==> !again
    ensures disk.dirs == if StoragePath(video.id) in old(disk.dirs) || !mkdirOk then old(disk.dirs)
                         else old(disk.dirs) + {Shard(video.id), StoragePath(video.id)}
  {
    first := video.GenPath(disk, mkdirOk);
    again := first;
    if !first {
      again := video.GenPath(disk, againOk);
    }
  }
}
