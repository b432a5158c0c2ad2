/**
 * `Backup.py`: zips the project tree, skipping excluded directories and
 * files, then uploads the archive to Google Drive and removes the local
 * copy. The file system is a tree value, the current time, the environment
 * and the outcome of each external call are parameters, and paths use '/'.
 */
module Backup {
  import opened Common

  // ---------------------------------------------------------------- the archive

  /** A directory entry as `os.walk` lists it, in listing order. */
  datatype Entry = File(name: string) | Dir(name: string, entries: seq<Entry>)

  /** One `zipf.write(full_path, arcname)`, with the base name it was chosen by. */
  datatype Archived = Archived(fullPath: string, arcname: string, file: string)

  /** `EXCLUDE_LIST`, given the timestamped name of the zip being written. */
  function ExcludeList(backupFilename: string): seq<string> {
    ["__pycache__", ".git", backupFilename, "token.json", "credentials.json", "meu_banco.db"]
  }

  /** `BACKUP_FILENAME` for a `%Y%m%d_%H%M%S` timestamp. */
  function BackupFilename(stamp: string): string {
    "hosts_backup_" + stamp + ".zip"
  }

  /** `os.path.join` of a directory without a trailing separator and a name. */
  function Join(dir: string, name: string): string {
    dir + "/" + name
  }

  /** `full_path[len(root_dir) + len(os.sep):]`; a slice past the end is empty. */
  function ArcName(rootDir: string, fullPath: string): (r: string)
    ensures StartsWith(fullPath, rootDir + "/") ==> rootDir + "/" + r == fullPath
  {
    if |rootDir| + 1 <= |fullPath| then fullPath[|rootDir| + 1..] else ""
  }

  /** The archive name of a file is its path below the root. */
  lemma ArcNameIsRelativePath(rootDir: string, rel: string)
    ensures ArcName(rootDir, rootDir + "/" + rel) == rel
  {
    assert (rootDir + "/" + rel)[|rootDir| + 1..] == rel;
  }

  /** The two file tests: the base name is not excluded and the archive name has no "backup.py". */
  predicate Kept(file: string, arcname: string, exclude: seq<string>) {
    file !in exclude && !Contains(arcname, "backup.py")
  }

  /** A file is kept iff no exclusion names it and "backup.py" occurs nowhere in its archive name. */
  lemma KeptIff(file: string, arcname: string, exclude: seq<string>)
    ensures Kept(file, arcname, exclude) <==>
      (forall k :: 0 <= k < |exclude| ==> exclude[k] != file) && forall i :: !OccursAt(arcname, "backup.py", i)
  {
    ContainsIff(arcname, "backup.py");
  }

  /** What the inner `for file in files` loop writes for the directory `root`. */
  function FilesHere(rootDir: string, root: string, entries: seq<Entry>, exclude: seq<string>): (r: seq<Archived>)
    ensures forall a :: a in r ==> Kept(a.file, a.arcname, exclude) && a.fullPath == Join(root, a.file)
    ensures forall a :: a in r ==> a.arcname == ArcName(rootDir, a.fullPath)
  {
    if entries == [] then [] else FileEntry(rootDir, root, entries[0], exclude) + FilesHere(rootDir, root, entries[1..], exclude)
  }

  /** What one entry of `files` contributes: itself when it is a kept file. */
  function FileEntry(rootDir: string, root: string, e: Entry, exclude: seq<string>): seq<Archived> {
    if e.File? && Kept(e.name, ArcName(rootDir, Join(root, e.name)), exclude)
    then [Archived(Join(root, e.name), ArcName(rootDir, Join(root, e.name)), e.name)] else []
  }

  /** Everything archived below `root`: its own files first, then each kept subdirectory in order. */
  function Walk(rootDir: string, root: string, entries: seq<Entry>, exclude: seq<string>): (r: seq<Archived>)
    ensures forall a :: a in r ==> a.arcname == ArcName(rootDir, a.fullPath)
    decreases entries, 1
  {
    FilesHere(rootDir, root, entries, exclude) + Subdirs(rootDir, root, entries, exclude)
  }

  /** The walks of the subdirectories `dirs[:]` keeps. */
  function Subdirs(rootDir: string, root: string, entries: seq<Entry>, exclude: seq<string>): (r: seq<Archived>)
    ensures forall a :: a in r ==> a.arcname == ArcName(rootDir, a.fullPath)
    decreases entries, 0
  {
    if entries == [] then []
    else
      var e := entries[0];
      (if e.Dir? && e.name !in exclude then Walk(rootDir, Join(root, e.name), e.entries, exclude) else [])
      + Subdirs(rootDir, root, entries[1..], exclude)
  }

  /** `create_zip_backup`'s archive for the project root. */
  function ZipContents(rootDir: string, tree: seq<Entry>, backupFilename: string): seq<Archived> {
    Walk(rootDir, rootDir, tree, ExcludeList(backupFilename))
  }

  /** No archived file is excluded by name or mentions "backup.py", at any depth. */
  lemma {:induction false} WalkKeepsOnlyKept(rootDir: string, root: string, entries: seq<Entry>, exclude: seq<string>)
    ensures forall a :: a in Walk(rootDir, root, entries, exclude) ==> Kept(a.file, a.arcname, exclude)
    decreases entries, 1
  {
    SubdirsKeepOnlyKept(rootDir, root, entries, exclude);
  }

  lemma {:induction false} SubdirsKeepOnlyKept(rootDir: string, root: string, entries: seq<Entry>, exclude: seq<string>)
    ensures forall a :: a in Subdirs(rootDir, root, entries, exclude) ==> Kept(a.file, a.arcname, exclude)
    decreases entries, 0
  {
    if entries != [] {
      var e := entries[0];
      if e.Dir? && e.name !in exclude {
        WalkKeepsOnlyKept(rootDir, Join(root, e.name), e.entries, exclude);
      }
      SubdirsKeepOnlyKept(rootDir, root, entries[1..], exclude);
    }
  }

  /** Conversely, every kept file directly in `root` is archived. */
  lemma {:induction false} KeptFileArchived(rootDir: string, root: string, entries: seq<Entry>, exclude: seq<string>, k: nat)
    requires k < |entries| && entries[k].File?
    requires Kept(entries[k].name, ArcName(rootDir, Join(root, entries[k].name)), exclude)
    ensures var full := Join(root, entries[k].name);
      Archived(full, ArcName(rootDir, full), entries[k].name) in FilesHere(rootDir, root, entries, exclude)
    decreases k
  {
    if k > 0 {
      KeptFileArchived(rootDir, root, entries[1..], exclude, k - 1);
    }
  }

  /** Every kept subdirectory is walked, and what it archives is in the archive of its parent. */
  lemma {:induction false} KeptDirWalked(rootDir: string, root: string, entries: seq<Entry>, exclude: seq<string>, k: nat)
    requires k < |entries| && entries[k].Dir? && entries[k].name !in exclude
    ensures forall a :: a in Walk(rootDir, Join(root, entries[k].name), entries[k].entries, exclude) ==>
      a in Subdirs(rootDir, root, entries, exclude)
    decreases k
  {
    var e := entries[0];
    var here := if e.Dir? && e.name !in exclude then Walk(rootDir, Join(root, e.name), e.entries, exclude) else [];
    var rest := Subdirs(rootDir, root, entries[1..], exclude);
    assert Subdirs(rootDir, root, entries, exclude) == here + rest;
    if k > 0 {
      assert entries[1..][k - 1] == entries[k];
      KeptDirWalked(rootDir, root, entries[1..], exclude, k - 1);
    }
  }

  /** `root` is the project root or a directory below it. */
  predicate Below(rootDir: string, root: string) {
    root == rootDir || StartsWith(root, rootDir + "/")
  }

  lemma JoinBelow(rootDir: string, root: string, name: string)
    requires Below(rootDir, root)
    ensures StartsWith(Join(root, name), rootDir + "/")
  {
    var p := rootDir + "/";
    if root == rootDir {
      assert Join(root, name)[..|p|] == p;
    } else {
      assert Join(root, name)[..|p|] == root[..|p|];
    }
  }

  /** Every archive name is the full path with the root and one separator removed. */
  lemma {:induction false} WalkArcNamesRelative(rootDir: string, root: string, entries: seq<Entry>, exclude: seq<string>)
    requires Below(rootDir, root)
    ensures forall a :: a in Walk(rootDir, root, entries, exclude) ==> rootDir + "/" + a.arcname == a.fullPath
    decreases entries, 1
  {
    forall a | a in FilesHere(rootDir, root, entries, exclude) ensures rootDir + "/" + a.arcname == a.fullPath {
      JoinBelow(rootDir, root, a.file);
    }
    SubdirsArcNamesRelative(rootDir, root, entries, exclude);
  }

  lemma {:induction false} SubdirsArcNamesRelative(rootDir: string, root: string, entries: seq<Entry>, exclude: seq<string>)
    requires Below(rootDir, root)
    ensures forall a :: a in Subdirs(rootDir, root, entries, exclude) ==> rootDir + "/" + a.arcname == a.fullPath
    decreases entries, 0
  {
    if entries != [] {
      var e := entries[0];
      if e.Dir? && e.name !in exclude {
        JoinBelow(rootDir, root, e.name);
        WalkArcNamesRelative(rootDir, Join(root, e.name), e.entries, exclude);
      }
      SubdirsArcNamesRelative(rootDir, root, entries[1..], exclude);
    }
  }

  /** An excluded directory is pruned: whatever it holds, the archive is the same. */
  lemma {:induction false} ExcludedDirContentsIgnored(rootDir: string, root: string, entries: seq<Entry>,
                                                      exclude: seq<string>, k: nat, other: seq<Entry>)
    requires k < |entries| && entries[k].Dir? && entries[k].name in exclude
    ensures Walk(rootDir, root, entries[k := Dir(entries[k].name, other)], exclude) == Walk(rootDir, root, entries, exclude)
    decreases k
  {
    var swapped := entries[k := Dir(entries[k].name, other)];
    FilesHereIgnoresDirs(rootDir, root, entries, exclude, k, other);
    SubdirsIgnoreExcluded(rootDir, root, entries, exclude, k, other);
  }

  lemma {:induction false} FilesHereIgnoresDirs(rootDir: string, root: string, entries: seq<Entry>,
                                                exclude: seq<string>, k: nat, other: seq<Entry>)
    requires k < |entries| && entries[k].Dir?
    ensures FilesHere(rootDir, root, entries[k := Dir(entries[k].name, other)], exclude) == FilesHere(rootDir, root, entries, exclude)
    decreases k
  {
    var swapped := entries[k := Dir(entries[k].name, other)];
    if k > 0 {
      assert swapped[0] == entries[0];
      assert swapped[1..] == entries[1..][k - 1 := Dir(entries[k].name, other)];
      FilesHereIgnoresDirs(rootDir, root, entries[1..], exclude, k - 1, other);
    } else {
      assert swapped[1..] == entries[1..];
    }
  }

  lemma {:induction false} SubdirsIgnoreExcluded(rootDir: string, root: string, entries: seq<Entry>,
                                                 exclude: seq<string>, k: nat, other: seq<Entry>)
    requires k < |entries| && entries[k].Dir? && entries[k].name in exclude
    ensures Subdirs(rootDir, root, entries[k := Dir(entries[k].name, other)], exclude) == Subdirs(rootDir, root, entries, exclude)
    decreases k
  {
    var swapped := entries[k := Dir(entries[k].name, other)];
    if k > 0 {
      assert swapped[0] == entries[0];
      assert swapped[1..] == entries[1..][k - 1 := Dir(entries[k].name, other)];
      SubdirsIgnoreExcluded(rootDir, root, entries[1..], exclude, k - 1, other);
    } else {
      assert swapped[1..] == entries[1..];
      assert Subdirs(rootDir, root, swapped, exclude) == Subdirs(rootDir, root, swapped[1..], exclude);
      assert Subdirs(rootDir, root, entries, exclude) == Subdirs(rootDir, root, entries[1..], exclude);
    }
  }

  /** The zip being written, the tokens and the database are left out of the archive. */
  lemma ExcludedFilesNeverArchived(rootDir: string, tree: seq<Entry>, stamp: string)
    ensures forall a :: a in ZipContents(rootDir, tree, BackupFilename(stamp)) ==>
      a.file != BackupFilename(stamp) && a.file != "token.json" && a.file != "credentials.json" && a.file != "meu_banco.db"
  {
    WalkKeepsOnlyKept(rootDir, rootDir, tree, ExcludeList(BackupFilename(stamp)));
  }

  /** A text without the first letter of `t` cannot contain `t`. */
  lemma {:induction false} MissingLetterNotContained(s: string, t: string)
    requires t != [] && forall i :: 0 <= i < |s| ==> s[i] != t[0]
    ensures !Contains(s, t)
    decreases |s|
  {
    if s != [] {
      assert !StartsWith(s, t) by {
        if |t| <= |s| {
          assert s[..|t|][0] == s[0];
        }
      }
      MissingLetterNotContained(s[1..], t);
    }
  }

  /** A kept file in a kept directory just below the root is archived under `arc`, that is `dir/file`. */
  lemma NestedFileArchived(rootDir: string, dirName: string, file: string, arc: string, exclude: seq<string>)
    requires arc == dirName + "/" + file
    requires dirName !in exclude && Kept(file, arc, exclude)
    ensures Archived(rootDir + "/" + arc, arc, file) in Walk(rootDir, rootDir, [Dir(dirName, [File(file)])], exclude)
  {
    var dir := Join(rootDir, dirName);
    assert Join(dir, file) == rootDir + "/" + arc;
    ArcNameIsRelativePath(rootDir, arc);
    KeptFileArchived(rootDir, dir, [File(file)], exclude, 0);
    KeptDirWalked(rootDir, rootDir, [Dir(dirName, [File(file)])], exclude, 0);
  }

  /** The test is case-sensitive: the script itself, `hosts.py/Backup.py`, is archived. */
  lemma ScriptItselfArchived(rootDir: string, stamp: string, dirName: string, file: string)
    requires dirName == "hosts.py" && file == "Backup.py"
    ensures Archived(rootDir + "/" + dirName + "/" + file, dirName + "/" + file, file)
      in ZipContents(rootDir, [Dir(dirName, [File(file)])], BackupFilename(stamp))
  {
    var arc := dirName + "/" + file;
    ScriptKept(stamp, dirName, file);
    NestedFileArchived(rootDir, dirName, file, arc, ExcludeList(BackupFilename(stamp)));
    assert rootDir + "/" + arc == rootDir + "/" + dirName + "/" + file;
  }

  lemma ScriptKept(stamp: string, dirName: string, file: string)
    requires dirName == "hosts.py" && file == "Backup.py"
    ensures var exclude := ExcludeList(BackupFilename(stamp));
      dirName !in exclude && Kept(file, dirName + "/" + file, exclude)
  {
    var exclude := ExcludeList(BackupFilename(stamp));
    assert dirName !in exclude && file !in exclude by {
      assert |BackupFilename(stamp)| >= 17;
    }
    var arc := dirName + "/" + file;
    assert !Contains(arc, "backup.py") by {
      assert arc == "hosts.py/Backup.py";
      MissingLetterNotContained(arc, "backup.py");
    }
  }

  /** The alternative credentials name is not in the list: `credentials.json.json` is archived. */
  lemma AltCredentialsArchived(rootDir: string, stamp: string, name: string)
    requires name == "credentials.json.json"
    ensures Archived(rootDir + "/" + name, name, name) in ZipContents(rootDir, [File(name)], BackupFilename(stamp))
  {
    var exclude := ExcludeList(BackupFilename(stamp));
    assert name !in exclude by {
      assert BackupFilename(stamp)[0] == 'h';
    }
    assert !Contains(name, "backup.py") by {
      MissingLetterNotContained(name, "backup.py");
    }
    ArcNameIsRelativePath(rootDir, name);
    KeptFileArchived(rootDir, rootDir, [File(name)], exclude, 0);
  }

  /** The inner `for file in files` loop of `create_zip_backup` for the directory `root`. */
  method ArchiveFiles(rootDir: string, root: string, entries: seq<Entry>, exclude: seq<string>) returns (written: seq<Archived>)
    ensures written == FilesHere(rootDir, root, entries, exclude)
  {
    var relativePathStart := |rootDir| + 1;
    written := [];
    var i := 0;
    while i < |entries|
      invariant 0 <= i <= |entries|
      invariant written == FilesHere(rootDir, root, entries[..i], exclude)
    {
      FilesHereStep(rootDir, root, entries, exclude, i);
      var e := entries[i];
      var here: seq<Archived> := [];
      if e.File? && e.name !in exclude {
        var fullPath := Join(root, e.name);
        var arcname := if relativePathStart <= |fullPath| then fullPath[relativePathStart..] else "";
        if !Contains(arcname, "backup.py") {
          here := [Archived(fullPath, arcname, e.name)];
        }
      }
      written := written + here;
      i := i + 1;
      assert written == FilesHere(rootDir, root, entries[..i], exclude);
    }
    assert entries[..|entries|] == entries;
  }

  /** `create_zip_backup`'s walk from `root` down: the directory's files, then each kept subdirectory in turn. */
  method ArchiveTree(rootDir: string, root: string, entries: seq<Entry>, exclude: seq<string>) returns (written: seq<Archived>)
    ensures written == Walk(rootDir, root, entries, exclude)
    decreases entries
  {
    var files := ArchiveFiles(rootDir, root, entries, exclude);
    var below: seq<Archived> := [];
    var i := 0;
    while i < |entries|
      invariant 0 <= i <= |entries|
      invariant below == Subdirs(rootDir, root, entries[..i], exclude)
    {
      SubdirsStep(rootDir, root, entries, exclude, i);
      var e := entries[i];
      var here: seq<Archived> := [];
      if e.Dir? && e.name !in exclude {
        here := ArchiveTree(rootDir, Join(root, e.name), e.entries, exclude);
      }
      below := below + here;
      i := i + 1;
      assert below == Subdirs(rootDir, root, entries[..i], exclude);
    }
    assert entries[..|entries|] == entries;
    written := files + below;
  }

  lemma {:induction false} FilesHereAppend(rootDir: string, root: string, a: seq<Entry>, b: seq<Entry>, exclude: seq<string>)
    ensures FilesHere(rootDir, root, a + b, exclude) == FilesHere(rootDir, root, a, exclude) + FilesHere(rootDir, root, b, exclude)
  {
    if a == [] {
      assert a + b == b;
    } else {
      assert (a + b)[0] == a[0] && (a + b)[1..] == a[1..] + b;
      FilesHereAppend(rootDir, root, a[1..], b, exclude);
    }
  }

  lemma FilesHereStep(rootDir: string, root: string, entries: seq<Entry>, exclude: seq<string>, i: nat)
    requires i < |entries|
    ensures FilesHere(rootDir, root, entries[..i + 1], exclude)
      == FilesHere(rootDir, root, entries[..i], exclude) + FileEntry(rootDir, root, entries[i], exclude)
  {
    assert entries[..i + 1] == entries[..i] + [entries[i]];
    FilesHereAppend(rootDir, root, entries[..i], [entries[i]], exclude);
    assert [entries[i]][1..] == [];
  }

  lemma {:induction false} SubdirsAppend(rootDir: string, root: string, a: seq<Entry>, b: seq<Entry>, exclude: seq<string>)
    ensures Subdirs(rootDir, root, a + b, exclude) == Subdirs(rootDir, root, a, exclude) + Subdirs(rootDir, root, b, exclude)
  {
    if a == [] {
      assert a + b == b;
    } else {
      assert (a + b)[0] == a[0] && (a + b)[1..] == a[1..] + b;
      var first := if a[0].Dir? && a[0].name !in exclude then Walk(rootDir, Join(root, a[0].name), a[0].entries, exclude) else [];
      assert Subdirs(rootDir, root, a + b, exclude) == first + Subdirs(rootDir, root, a[1..] + b, exclude);
      assert Subdirs(rootDir, root, a, exclude) == first + Subdirs(rootDir, root, a[1..], exclude);
      SubdirsAppend(rootDir, root, a[1..], b, exclude);
    }
  }

  lemma SubdirsStep(rootDir: string, root: string, entries: seq<Entry>, exclude: seq<string>, i: nat)
    requires i < |entries|
    ensures Subdirs(rootDir, root, entries[..i + 1], exclude) == Subdirs(rootDir, root, entries[..i], exclude)
      + (if entries[i].Dir? && entries[i].name !in exclude
         then Walk(rootDir, Join(root, entries[i].name), entries[i].entries, exclude) else [])
  {
    assert entries[..i + 1] == entries[..i] + [entries[i]];
    SubdirsAppend(rootDir, root, entries[..i], [entries[i]], exclude);
    assert [entries[i]][1..] == [];
  }

  // ---------------------------------------------------------------- credentials and upload

  const DefaultDriveFolderId: string := "1IfMK8UGcaT2cUALo5Uas2mB0n9zIp8hs"

  /**
   * `CREDENTIALS_FILE` as the module sets it: `credentials.json` beside the
   * script, or `credentials.json.json` when only that one exists.
   */
  function DefaultCredentials(scriptDir: string, defaultExists: bool, altExists: bool): (r: string)
    ensures r == Join(scriptDir, "credentials.json.json") <==> !defaultExists && altExists
    ensures r == Join(scriptDir, "credentials.json") <==> defaultExists || !altExists
  {
    if !defaultExists && altExists then Join(scriptDir, "credentials.json.json") else Join(scriptDir, "credentials.json")
  }

  /** The command-line options `parse_args` reads; a missing option is `None`. */
  datatype Args = Args(serviceAccount: Option<string>, credentials: Option<string>, driveFolder: Option<string>, noCleanup: bool)

  /** The credential file `run_backup` settles on, highest precedence first. */
  function Credentials(initial: string, args: Args, serviceAccountEnv: Option<string>): (r: string)
    ensures Present(args.serviceAccount) ==> r == args.serviceAccount.value
    ensures !Present(args.serviceAccount) && Present(serviceAccountEnv) ==> r == serviceAccountEnv.value
    ensures !Present(args.serviceAccount) && !Present(serviceAccountEnv) && Present(args.credentials) ==> r == args.credentials.value
    ensures !Present(args.serviceAccount) && !Present(serviceAccountEnv) && !Present(args.credentials) ==> r == initial
  {
    if Present(args.serviceAccount) then args.serviceAccount.value
    else if Present(serviceAccountEnv) then serviceAccountEnv.value
    else if Present(args.credentials) then args.credentials.value
    else initial
  }

  /** The Drive metadata of the upload. */
  datatype Metadata = Metadata(name: string, mimeType: string, parents: Option<seq<string>>)

  /** `os.path.basename`: the text after the last separator. */
  function Basename(path: string): (r: string)
    ensures |r| <= |path| && r == path[|path| - |r|..]
    ensures forall i :: 0 <= i < |r| ==> r[i] != '/'
    ensures |r| < |path| ==> path[|path| - |r| - 1] == '/'
  {
    if path == [] || path[|path| - 1] == '/' then [] else Basename(path[..|path| - 1]) + [path[|path| - 1]]
  }

  /** The base name of a joined path is the name joined. */
  lemma {:induction false} BasenameOfJoin(dir: string, name: string)
    requires forall i :: 0 <= i < |name| ==> name[i] != '/'
    ensures Basename(Join(dir, name)) == name
    decreases |name|
  {
    var p := Join(dir, name);
    if name != [] {
      var init := name[..|name| - 1];
      assert p[..|p| - 1] == Join(dir, init);
      BasenameOfJoin(dir, init);
      assert name == init + [name[|name| - 1]];
    } else {
      assert p[|p| - 1] == '/';
    }
  }

  /** `upload_to_drive`'s `file_metadata`: a `parents` entry iff the folder id is non-empty. */
  function UploadMetadata(filePath: string, folderId: string): (m: Metadata)
    ensures m.name == Basename(filePath) && m.mimeType == "application/zip"
    ensures m.parents.Some? <==> folderId != ""
    ensures m.parents.Some? ==> m.parents.value == [folderId]
  {
    Metadata(Basename(filePath), "application/zip", if folderId != "" then Some([folderId]) else None)
  }

  /** Uploaded under its own timestamped name, into the default folder unless another is given. */
  lemma DefaultUploadGoesToFolder(projectRoot: string, stamp: string)
    requires forall i :: 0 <= i < |stamp| ==> stamp[i] != '/'
    ensures var m := UploadMetadata(Join(projectRoot, BackupFilename(stamp)), DefaultDriveFolderId);
      m.name == BackupFilename(stamp) && m.parents == Some([DefaultDriveFolderId])
  {
    var n := BackupFilename(stamp);
    assert forall i :: 0 <= i < |n| ==> n[i] != '/' by {
      assert forall i :: 13 <= i < 13 + |stamp| ==> n[i] == stamp[i - 13];
    }
    BasenameOfJoin(projectRoot, n);
  }

  /** What `token.json` holds, when it exists. */
  datatype Token = NoToken | Unreadable | Stored(valid: bool, expired: bool, hasRefreshToken: bool)

  /** How `authenticate_google_drive` ended: a service account, user credentials (saved anew or not), or exit. */
  datatype Auth = ServiceAccount | User(tokenSaved: bool) | Exited

  /**
   * `authenticate_google_drive`: the credentials file is tried as a service
   * account first; otherwise a valid stored token is used as is, an expired
   * one with a refresh token is refreshed, and failing both the OAuth flow
   * runs, whose failure exits the program.
   */
  function Authenticate(serviceAccountLoads: bool, token: Token, oauthCompletes: bool): (a: Auth)
    ensures a == ServiceAccount <==> serviceAccountLoads
    ensures a == Exited <==> (!serviceAccountLoads && !oauthCompletes
      && !(token.Stored? && (token.valid || (token.expired && token.hasRefreshToken))))
    ensures a.User? ==> (a.tokenSaved <==> !(token.Stored? && token.valid))
  {
    if serviceAccountLoads then ServiceAccount
    else if token.Stored? && token.valid then User(false)
    else if token.Stored? && token.expired && token.hasRefreshToken then User(true)
    else if oauthCompletes then User(true)
    else Exited
  }

  /** What the run did, in order. */
  datatype Step = Zip | SignIn | Upload(metadata: Metadata) | Cleanup

  /**
   * The steps of `run_backup` after the options: a failed zip stops the run,
   * a failed authentication exits, and the local zip is removed only after a
   * successful upload when `--no-cleanup` was not given.
   */
  function RunSteps(zipOk: bool, authOk: bool, uploaded: bool, noCleanup: bool, metadata: Metadata): (r: seq<Step>)
    ensures r != [] && r[0] == Zip
    ensures !zipOk ==> r == [Zip]
    ensures zipOk && !authOk ==> r == [Zip, SignIn]
    ensures zipOk && authOk ==> |r| >= 3 && r[..3] == [Zip, SignIn, Upload(metadata)]
    ensures Cleanup in r <==> zipOk && authOk && uploaded && !noCleanup
  {
    if !zipOk then [Zip]
    else if !authOk then [Zip, SignIn]
    else if uploaded && !noCleanup then [Zip, SignIn, Upload(metadata), Cleanup]
    else [Zip, SignIn, Upload(metadata)]
  }

  /** `run_backup` reassigns these two module globals before doing anything else. */
  class BackupRun {
    var credentialsFile: string
    var driveFolderId: string

    /** The values the module leaves behind on import. */
    constructor (scriptDir: string, defaultExists: bool, altExists: bool)
      ensures credentialsFile == DefaultCredentials(scriptDir, defaultExists, altExists)
      ensures driveFolderId == DefaultDriveFolderId
    {
      credentialsFile := Join(scriptDir, "credentials.json");
      if !defaultExists {
        var alt := Join(scriptDir, "credentials.json.json");
        if altExists {
          credentialsFile := alt;
        }
      }
      driveFolderId := DefaultDriveFolderId;
    }

    /** The option handling at the top of `run_backup`. */
    method Configure(args: Args, serviceAccountEnv: Option<string>)
      modifies this
      ensures credentialsFile == Credentials(old(credentialsFile), args, serviceAccountEnv)
      ensures driveFolderId == if Present(args.driveFolder) then args.driveFolder.value else old(driveFolderId)
    {
      if args.credentials.Some? && args.credentials.value != "" {
        credentialsFile := args.credentials.value;
      }
      if args.serviceAccount.Some? && args.serviceAccount.value != "" {
        credentialsFile := args.serviceAccount.value;
      } else if serviceAccountEnv.Some? && serviceAccountEnv.value != "" {
        credentialsFile := serviceAccountEnv.value;
      }
      if args.driveFolder.Some? && args.driveFolder.value != "" {
        driveFolderId := args.driveFolder.value;
      }
    }

    /**
     * `run_backup` after the options: `zipOk` is what `create_zip_backup`
     * returned, `auth` how authentication ended, and `uploaded` what the
     * upload returned (an `HttpError` counts as `False`).
     */
    method Run(args: Args, serviceAccountEnv: Option<string>, backupPath: string,
               zipOk: bool, auth: Auth, uploaded: bool) returns (steps: seq<Step>)
      modifies this
      ensures credentialsFile == Credentials(old(credentialsFile), args, serviceAccountEnv)
      ensures driveFolderId == if Present(args.driveFolder) then args.driveFolder.value else old(driveFolderId)
      ensures steps == RunSteps(zipOk, !auth.Exited?, uploaded, args.noCleanup, UploadMetadata(backupPath, driveFolderId))
    {
      Configure(args, serviceAccountEnv);
      var metadata := UploadMetadata(backupPath, driveFolderId);
      if !zipOk {
        steps := [Zip];
      } else if auth.Exited? {
        steps := [Zip, SignIn];
      } else if uploaded && !args.noCleanup {
        steps := [Zip, SignIn, Upload(metadata), Cleanup];
      } else {
        steps := [Zip, SignIn, Upload(metadata)];
      }
    }
  }
}
