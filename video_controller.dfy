/** controllers/video_controller.py: saving an uploaded interview recording
    under a fixed directory. */
module VideoController {
  import opened Wrappers
  import opened PyStrings
  import opened JsonValues
  import opened Http

  type Bytes = seq<bv8>

  /** The part of the file system the handler touches: the directories that
      exist and the contents of the files, by path. */
  class FileSystem {
    var dirs: set<string>
    var files: map<string, Bytes>

    constructor (dirs: set<string>, files: map<string, Bytes>)
      ensures this.dirs == dirs && this.files == files
    {
      this.dirs := dirs;
      this.files := files;
    }

    /** `os.makedirs(path, exist_ok=True)`: the directory and every missing
        ancestor exist afterwards; existing ones are no error. */
    method MakeDirs(path: string)
      modifies this
      ensures dirs == old(dirs) + DirChain(path)
      ensures files == old(files)
    {
      dirs := dirs + DirChain(path);
    }

    /** `open(path, "wb").write(content)`: the file holds exactly `content`,
        whether or not it existed. */
    method WriteFile(path: string, content: Bytes)
      modifies this
      ensures files == old(files)[path := content]
      ensures dirs == old(dirs)
    {
      files := files[path := content];
    }
  }

  /** The directories `os.makedirs` creates for `path`: each prefix ending just
      before a separator, and the path itself. */
  function DirChain(path: string): (r: set<string>)
    ensures path != [] ==> path in r
    ensures forall d :: d in r ==> d != [] && StartsWith(path, d)
  {
    assert path != [] ==> path[..|path|] == path;
    set i | 0 < i <= |path| && (i == |path| || path[i] == '/') :: path[..i]
  }

  const VideoSaveDir := "/home/machine/Downloads/temp/interview-video"

  const VideoExtensions: seq<string> := [".mp4", ".mov", ".avi", ".mkv", ".webm"]

  /** `filename.lower().endswith((".mp4", ".mov", ".avi", ".mkv", ".webm"))`. */
  predicate IsVideoName(filename: string) {
    exists k :: 0 <= k < |VideoExtensions| && EndsWith(Lower(filename), VideoExtensions[k])
  }

  /** `os.path.join(dir, name)` on POSIX: an absolute `name` replaces `dir`;
      otherwise a separator is put between them unless `dir` is empty or already
      ends with one. */
  function JoinPath(dir: string, name: string): (path: string)
    ensures EndsWith(path, name)
  {
    if StartsWith(name, "/") then name
    else if dir == [] || EndsWith(dir, "/") then dir + name
    else dir + "/" + name
  }

  function UploadResponse(filename: string): Doc {
    map["message" := JStr("Video uploaded successfully"), "filename" := JStr(filename)]
  }

  /** `upload_video`. `saved` is what reading the upload and writing the file
      came to: `None` when both succeeded, or the text of the exception raised. */
  method UploadVideo(fs: FileSystem, filename: string, content: Bytes, saved: Option<string>)
    returns (r: Result<Doc, Exception>)
    modifies fs
    ensures !IsVideoName(filename) ==>
              r == Err(HTTPException(400, "Unsupported video format"))
              && fs.dirs == old(fs.dirs) && fs.files == old(fs.files)
    ensures IsVideoName(filename) ==> fs.dirs == old(fs.dirs) + DirChain(VideoSaveDir)
    ensures IsVideoName(filename) && saved.Some? ==>
              r == Err(HTTPException(500, "Failed to save video: " + saved.value))
              && fs.files == old(fs.files)
    ensures IsVideoName(filename) && saved.None? ==>
              r == Ok(UploadResponse(filename))
              && fs.files == old(fs.files)[JoinPath(VideoSaveDir, filename) := content]
  {
    if !IsVideoName(filename) {
      return Err(HTTPException(400, "Unsupported video format"));
    }
    fs.MakeDirs(VideoSaveDir);
    var location := JoinPath(VideoSaveDir, filename);
    if saved.Some? {
      return Err(HTTPException(500, "Failed to save video: " + saved.value));
    }
    fs.WriteFile(location, content);
    return Ok(UploadResponse(filename));
  }

  lemma LowerCharIdempotent(c: char)
    ensures LowerChar(LowerChar(c)) == LowerChar(c)
  {
  }

  /** The extension check ignores the case of the name: a name and its
      lower-case form are accepted or refused together. */
  lemma VideoNameIgnoresCase(filename: string)
    ensures IsVideoName(filename) <==> IsVideoName(Lower(filename))
  {
    forall i | 0 <= i < |filename| ensures Lower(Lower(filename))[i] == Lower(filename)[i] {
      LowerCharIdempotent(filename[i]);
    }
    assert Lower(Lower(filename)) == Lower(filename);
  }

  /** A name is accepted whatever the case of its extension: it is enough that
      its last characters, lower-cased, spell one of the five extensions. */
  lemma AnyCaseExtensionAccepted(filename: string, k: nat)
    requires k < |VideoExtensions| && |VideoExtensions[k]| <= |filename|
    requires Lower(filename[|filename| - |VideoExtensions[k]|..]) == VideoExtensions[k]
    ensures IsVideoName(filename)
  {
    var n := |filename| - |VideoExtensions[k]|;
    assert Lower(filename)[n..] == Lower(filename[n..]);
    assert EndsWith(Lower(filename), VideoExtensions[k]);
  }

  /** A relative name is saved inside the video directory, an absolute one
      where it points. */
  lemma SavedUnderDirectory(name: string)
    ensures !StartsWith(name, "/") ==> JoinPath(VideoSaveDir, name) == VideoSaveDir + "/" + name
    ensures StartsWith(name, "/") ==> JoinPath(VideoSaveDir, name) == name
  {
    assert VideoSaveDir[|VideoSaveDir| - 1] == 'o';
  }

  /** `os.makedirs` on `dir/name` creates `dir` as well, so each ancestor of
      the video directory exists after an accepted upload. */
  lemma ParentInChain(dir: string, name: string)
    requires dir != []
    ensures dir in DirChain(dir + "/" + name)
  {
    var path := dir + "/" + name;
    assert path[..|dir|] == dir;
    PrefixInChain(path, |dir|);
  }

  /** A prefix that stops just before a separator is created too. */
  lemma PrefixInChain(path: string, i: int)
    requires 0 < i < |path| && path[i] == '/'
    ensures path[..i] in DirChain(path)
  {
  }
}
