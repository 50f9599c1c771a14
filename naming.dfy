/** Naming rules of the archiver: how a video's storage directory, its
    thumbnail URL, its normalised title and the names of its three artifact
    files are derived from the video ID and the scraped title.  Everything
    here is a pure string computation. */
module Naming {

  /** The character `strings.Replace` looks for in a title, and its replacement. */
  const Space: char := ' '
  const Underscore: char := '_'

  /** The fixed suffixes of the three artifact files. */
  const AnnotationsSuffix: string := ".annotations.xml"
  const DescriptionSuffix: string := ".description"
  const ThumbnailSuffix: string := ".jpg"

  /** The parts of the thumbnail URL around the video ID. */
  const ThumbnailHost: string := "http://i3.ytimg.com/vi/"
  const ThumbnailName: string := "/maxresdefault.jpg"

  // ---------------------------------------------------------------------------
  // Title normalisation: strings.Replace(title, " ", "_", -1)
  // ---------------------------------------------------------------------------

  /** Every space of `title` replaced by an underscore; nothing else changes. */
  function Normalize(title: string): (r: string)
    ensures |r| == |title|
  {
    if title == [] then []
    else [if title[0] == Space then Underscore else title[0]] + Normalize(title[1..])
  }

  /** Position by position: a space becomes `_`, any other character stays. */
  lemma {:induction false} NormalizeAt(title: string, i: nat)
    requires i < |title|
    ensures Normalize(title)[i] == if title[i] == Space then Underscore else title[i]
  {
    if i > 0 {
      NormalizeAt(title[1..], i - 1);
    }
  }

  /** Normalize agrees with the pointwise definition of a replace-all. */
  lemma NormalizeIsReplaceAll(title: string)
    ensures Normalize(title) == seq(|title|, i requires 0 <= i < |title| =>
                                      if title[i] == Space then Underscore else title[i])
  {
    forall i | 0 <= i < |title|
      ensures Normalize(title)[i] == if title[i] == Space then Underscore else title[i]
    {
      NormalizeAt(title, i);
    }
  }

  /** No space survives normalisation. */
  lemma {:induction false} NormalizeHasNoSpace(title: string)
    ensures Space !in Normalize(title)
  {
    if title != [] {
      NormalizeHasNoSpace(title[1..]);
    }
  }

  /** A title without spaces is left exactly as it is. */
  lemma {:induction false} NormalizeFixesSpaceFree(title: string)
    requires Space !in title
    ensures Normalize(title) == title
  {
    if title != [] {
      assert title[0] != Space;
      assert Space !in title[1..] by {
        forall k | 0 <= k < |title[1..]| ensures title[1..][k] != Space {
          assert title[1..][k] == title[k + 1];
        }
      }
      NormalizeFixesSpaceFree(title[1..]);
      assert title == [title[0]] + title[1..];
    }
  }

  /** Normalising twice gives the same title as normalising once, so the
      second replacement in writeFiles leaves parseHTML's title unchanged. */
  lemma NormalizeIdempotent(title: string)
    ensures Normalize(Normalize(title)) == Normalize(title)
  {
    NormalizeHasNoSpace(title);
    NormalizeFixesSpaceFree(Normalize(title));
  }

  // ---------------------------------------------------------------------------
  // Storage path: genPath
  // ---------------------------------------------------------------------------

  /** The shard directory of an ID: its first character followed by `/`.
      `ID[:1]` panics on an empty ID, hence the precondition.  Go slices the
      first BYTE, not the first character; the two agree whenever the ID
      starts with an ASCII character, as every YouTube ID does.  For IDs
      starting with `é` and `à`, Go would put both in the shard of their
      shared leading UTF-8 byte, where this model keeps them apart. */
  function Shard(id: string): string
    requires id != []
  {
    id[..1] + "/"
  }

  /** The per-video directory `firstChar + "/" + ID + "/"`. */
  function StoragePath(id: string): (p: string)
    requires id != []
    ensures Shard(id) <= p
    ensures |p| == |id| + 3 && p[|p| - 1] == '/'
  {
    Shard(id) + id + "/"
  }

  /** Recovers the ID from a storage path: drop the shard and the final `/`. */
  function IdOfStoragePath(p: string): (id: string)
    requires |p| >= 3
    ensures |id| == |p| - 3
  {
    p[2..|p| - 1]
  }

  /** The storage path is the shard directory, then the ID, then `/`. */
  lemma StoragePathShape(id: string)
    requires id != []
    ensures StoragePath(id)[0] == id[0] && StoragePath(id)[1] == '/'
    ensures StoragePath(id)[2..|id| + 2] == id
  {
    assert StoragePath(id) == [id[0], '/'] + id + "/";
  }

  /** The ID can be read back from its storage path. */
  lemma StoragePathRoundTrip(id: string)
    requires id != []
    ensures IdOfStoragePath(StoragePath(id)) == id
  {
    StoragePathShape(id);
  }

  /** Distinct IDs never share a storage directory. */
  lemma StoragePathInjective(a: string, b: string)
    requires a != [] && b != []
    ensures StoragePath(a) == StoragePath(b) <==> a == b
  {
    if StoragePath(a) == StoragePath(b) {
      StoragePathRoundTrip(a);
      StoragePathRoundTrip(b);
    }
  }

  /** Two IDs land in the same shard exactly when they start with the same character. */
  lemma SameShard(a: string, b: string)
    requires a != [] && b != []
    ensures Shard(a) <= StoragePath(b) <==> a[0] == b[0]
  {
    if Shard(a) <= StoragePath(b) {
      assert Shard(a)[0] == StoragePath(b)[0];
    }
  }

  // ---------------------------------------------------------------------------
  // Artifact file names: writeFiles and downloadThumbnail
  // ---------------------------------------------------------------------------

  /** The common stem `Path + ID + "_" + Title` of every artifact of a video. */
  function ArtifactStem(path: string, id: string, title: string): (stem: string)
    ensures |stem| == |path| + |id| + 1 + |title|
  {
    path + id + "_" + title
  }

  function AnnotationsFile(path: string, id: string, title: string): (f: string)
    ensures |f| == |ArtifactStem(path, id, title)| + |AnnotationsSuffix|
  {
    ArtifactStem(path, id, title) + AnnotationsSuffix
  }

  function DescriptionFile(path: string, id: string, title: string): (f: string)
    ensures |f| == |ArtifactStem(path, id, title)| + |DescriptionSuffix|
  {
    ArtifactStem(path, id, title) + DescriptionSuffix
  }

  function ThumbnailFile(path: string, id: string, title: string): (f: string)
    ensures |f| == |ArtifactStem(path, id, title)| + |ThumbnailSuffix|
  {
    ArtifactStem(path, id, title) + ThumbnailSuffix
  }

  /** The three artifacts of one video start with the same stem and differ
      only in their fixed suffixes. */
  lemma ArtifactsShareStem(path: string, id: string, title: string)
    ensures ArtifactStem(path, id, title) <= AnnotationsFile(path, id, title)
    ensures ArtifactStem(path, id, title) <= DescriptionFile(path, id, title)
    ensures ArtifactStem(path, id, title) <= ThumbnailFile(path, id, title)
    ensures AnnotationsFile(path, id, title)[|ArtifactStem(path, id, title)|..] == AnnotationsSuffix
    ensures DescriptionFile(path, id, title)[|ArtifactStem(path, id, title)|..] == DescriptionSuffix
    ensures ThumbnailFile(path, id, title)[|ArtifactStem(path, id, title)|..] == ThumbnailSuffix
  {
  }

  /** The three artifacts of one video are three different files. */
  lemma ArtifactsDistinct(path: string, id: string, title: string)
    ensures AnnotationsFile(path, id, title) != DescriptionFile(path, id, title)
    ensures AnnotationsFile(path, id, title) != ThumbnailFile(path, id, title)
    ensures DescriptionFile(path, id, title) != ThumbnailFile(path, id, title)
  {
    var n := |ArtifactStem(path, id, title)|;
    assert |AnnotationsFile(path, id, title)| == n + 16;
    assert |DescriptionFile(path, id, title)| == n + 12;
    assert |ThumbnailFile(path, id, title)| == n + 4;
  }

  /** With the stored path, a space-free ID and a normalised title, no
      artifact file name contains a space. */
  lemma ArtifactNamesHaveNoSpace(id: string, title: string)
    requires id != [] && Space !in id
    ensures Space !in AnnotationsFile(StoragePath(id), id, Normalize(title))
    ensures Space !in DescriptionFile(StoragePath(id), id, Normalize(title))
    ensures Space !in ThumbnailFile(StoragePath(id), id, Normalize(title))
  {
    NormalizeHasNoSpace(title);
    assert StoragePath(id) == [id[0], '/'] + id + "/";
  }

  /** Normalising a concatenation normalises each part on its own. */
  lemma {:induction false} NormalizeConcat(a: string, b: string)
    ensures Normalize(a + b) == Normalize(a) + Normalize(b)
  {
    if a == [] {
      assert a + b == b;
    } else {
      assert (a + b)[0] == a[0] && (a + b)[1..] == a[1..] + b;
      NormalizeConcat(a[1..], b);
    }
  }

  /** The worked example's title, `Test Clip`, normalises to `Test_Clip`. */
  lemma ExampleTitle()
    ensures Normalize("Test Clip") == "Test_Clip"
  {
    var word, rest := "Test", "Clip";
    assert "Test Clip" == word + [Space] + rest;
    NormalizeConcat(word + [Space], rest);
    NormalizeConcat(word, [Space]);
    NormalizeFixesSpaceFree(word);
    NormalizeFixesSpaceFree(rest);
    assert Normalize([Space]) == [Underscore];
    assert word + [Underscore] + rest == "Test_Clip";
  }

  /** The worked example, ID `abc123` and title `Test Clip`: the directory
      and the stem every artifact name starts with.
      The literals come in as parameters fixed by the precondition, so the
      solver works on names rather than unfolding the literal strings. */
  lemma ExampleStem(id: string, title: string)
    requires id == "abc123" && title == "Test Clip"
    ensures StoragePath(id) == "a/abc123/"
    ensures ArtifactStem(StoragePath(id), id, Normalize(title)) == "a/abc123/abc123_Test_Clip"
  {
    ExamplePath(id);
    ExampleTitle();
    ExampleJoin(StoragePath(id), id, Normalize(title));
  }

  /** The worked example's storage directory.
      The literals come in as parameters fixed by the precondition, so the
      solver works on names rather than unfolding the literal strings. */
  lemma ExamplePath(id: string)
    requires id == "abc123"
    ensures StoragePath(id) == "a/abc123/"
  {
    assert Shard(id) == "a/";
  }

  /** The worked example's stem, from its directory, ID and normalised title.
      The literals come in as parameters fixed by the precondition, so the
      solver works on names rather than unfolding the literal strings. */
  lemma ExampleJoin(path: string, id: string, title: string)
    requires path == "a/abc123/" && id == "abc123" && title == "Test_Clip"
    ensures ArtifactStem(path, id, title) == "a/abc123/abc123_Test_Clip"
  {
  }

  /** The worked example's three artifact names.
      The literals come in as parameters fixed by the precondition, so the
      solver works on names rather than unfolding the literal strings. */
  lemma ExampleArtifactNames(id: string, title: string)
    requires id == "abc123" && title == "Test Clip"
    ensures AnnotationsFile(StoragePath(id), id, Normalize(title))
            == "a/abc123/abc123_Test_Clip.annotations.xml"
    ensures DescriptionFile(StoragePath(id), id, Normalize(title))
            == "a/abc123/abc123_Test_Clip.description"
    ensures ThumbnailFile(StoragePath(id), id, Normalize(title))
            == "a/abc123/abc123_Test_Clip.jpg"
  {
    ExampleStem(id, title);
    var stem := ArtifactStem(StoragePath(id), id, Normalize(title));
    AppendSuffix(stem, "a/abc123/abc123_Test_Clip", AnnotationsSuffix);
    AppendSuffix(stem, "a/abc123/abc123_Test_Clip", DescriptionSuffix);
    AppendSuffix(stem, "a/abc123/abc123_Test_Clip", ThumbnailSuffix);
  }

  /** Equal stems stay equal once a suffix is appended: a proof step that
      lets the worked example name each stem once instead of spelling it. */
  lemma AppendSuffix(stem: string, expected: string, suffix: string)
    requires stem == expected
    ensures stem + suffix == expected + suffix
  {
  }

  // ---------------------------------------------------------------------------
  // Thumbnail URL: archive.go
  // ---------------------------------------------------------------------------

  /** The maximum-resolution thumbnail URL of a video. */
  function ThumbnailUrl(id: string): (u: string)
    ensures ThumbnailHost <= u
    ensures |u| == |ThumbnailHost| + |id| + |ThumbnailName|
    ensures u[|ThumbnailHost| + |id|..] == ThumbnailName
  {
    ThumbnailHost + id + ThumbnailName
  }

  /** Reads the ID back out of a thumbnail URL. */
  function IdOfThumbnailUrl(u: string): string
    requires |u| >= |ThumbnailHost| + |ThumbnailName|
  {
    u[|ThumbnailHost|..|u| - |ThumbnailName|]
  }

  lemma ThumbnailUrlRoundTrip(id: string)
    ensures IdOfThumbnailUrl(ThumbnailUrl(id)) == id
  {
    assert ThumbnailUrl(id)[|ThumbnailHost|..|ThumbnailHost| + |id|] == id;
  }

  lemma ThumbnailUrlInjective(a: string, b: string)
    ensures ThumbnailUrl(a) == ThumbnailUrl(b) <==> a == b
  {
    if ThumbnailUrl(a) == ThumbnailUrl(b) {
      ThumbnailUrlRoundTrip(a);
      ThumbnailUrlRoundTrip(b);
    }
  }

  // ---------------------------------------------------------------------------
  // Description text: the paragraphs' texts appended to one buffer
  // ---------------------------------------------------------------------------

  /** The texts, in order, joined with no separator: nothing for no texts,
      and never shorter than any one of them. */
  function Concat(texts: seq<string>): (r: string)
    ensures texts == [] ==> r == []
    ensures forall i :: 0 <= i < |texts| ==> |texts[i]| <= |r|
  {
    if texts == [] then [] else Concat(texts[..|texts| - 1]) + texts[|texts| - 1]
  }

  /** Joining distributes over splitting the paragraph list. */
  lemma {:induction false} ConcatAppend(a: seq<string>, b: seq<string>)
    ensures Concat(a + b) == Concat(a) + Concat(b)
  {
    if b == [] {
      assert a + b == a;
    } else {
      var init := b[..|b| - 1];
      ConcatAppend(a, init);
      assert (a + b)[..|a + b| - 1] == a + init;
      assert (a + b)[|a + b| - 1] == b[|b| - 1];
      calc {
        Concat(a + b);
        Concat(a + init) + b[|b| - 1];
        Concat(a) + Concat(init) + b[|b| - 1];
        Concat(a) + Concat(b);
      }
    }
  }

  /** Each state of the buffer while the paragraphs are being written is a
      prefix of the final description. */
  lemma ConcatPrefix(texts: seq<string>, i: nat)
    requires i <= |texts|
    ensures Concat(texts[..i]) <= Concat(texts)
  {
    ConcatAppend(texts[..i], texts[i..]);
    assert texts[..i] + texts[i..] == texts;
  }

  /** parseHTML's loop: write each paragraph's text into an initially empty buffer. */
  method JoinTexts(texts: seq<string>) returns (buffer: string)
    ensures buffer == Concat(texts)
  {
    buffer := [];
    for i := 0 to |texts|
      invariant buffer == Concat(texts[..i])
    {
      assert texts[..i + 1][..i] == texts[..i];
      buffer := buffer + texts[i];
    }
    assert texts[..|texts|] == texts;
  }
}
