/**
 * The logic of the file explorer, src/components/FilesPanel.tsx: the icon chosen for a file
 * name, the guard of the create dialog, and the rows listed for the file system.
 */
module FilesPanel {
  import opened Wrappers
  import opened Text
  import opened Types
  import Records
  import Api

  datatype FileIcon = FileJs | FileHtml | FileCss | PlainFile

  /** The `switch` on the lower-cased extension. */
  function IconForExtension(ext: string): (icon: FileIcon)
    ensures icon == FileJs <==> ext in {"js", "jsx", "ts", "tsx"}
    ensures icon == FileHtml <==> ext == "html"
    ensures icon == FileCss <==> ext in {"css", "scss"}
    ensures icon == PlainFile <==> ext !in {"js", "jsx", "ts", "tsx", "html", "css", "scss"}
  {
    if ext in {"js", "jsx", "ts", "tsx"} then FileJs
    else if ext == "html" then FileHtml
    else if ext in {"css", "scss"} then FileCss
    else PlainFile
  }

  /**
   * `getFileIcon`: the icon for the lower-cased last `.`-separated part of the name. Unlike
   * `getFileExtension`, a name without a dot is its own extension.
   */
  function GetFileIcon(filename: string): (icon: FileIcon)
    ensures '.' in filename ==> icon == IconForExtension(ToLower(Api.GetFileExtension(filename)))
    ensures '.' !in filename ==> icon == IconForExtension(ToLower(filename))
  {
    SplitLast(filename, '.');
    IconForExtension(ToLower(Last(Split(filename, '.'))))
  }

  /** `"JS"` gets the script icon, though its language is plain text. */
  lemma DotlessScriptName()
    ensures GetFileIcon("JS") == FileJs
    ensures Api.GetLanguageFromFilename("JS") == Api.PlainText
  {
    assert '.' !in "JS";
    assert ToLower("JS") == "js";
  }

  /** For a name with a dot, the icon and the editor language agree on what kind of file it is. */
  lemma IconAgreesWithLanguage(filename: string)
    requires '.' in filename
    ensures GetFileIcon(filename) == FileJs <==> Api.GetLanguageFromFilename(filename) in {"javascript", "typescript"}
    ensures GetFileIcon(filename) == FileHtml <==> Api.GetLanguageFromFilename(filename) == "html"
    ensures GetFileIcon(filename) == FileCss <==> Api.GetLanguageFromFilename(filename) in {"css", "scss"}
  {
    var ext := ToLower(Api.GetFileExtension(filename));
    LanguageOfIconExtension(ext);
  }

  lemma LanguageOfIconExtension(ext: string)
    ensures IconForExtension(ext) == FileJs <==> (ext in Api.LanguageMap && Api.LanguageMap[ext] in {"javascript", "typescript"})
    ensures IconForExtension(ext) == FileHtml <==> (ext in Api.LanguageMap && Api.LanguageMap[ext] == "html")
    ensures IconForExtension(ext) == FileCss <==> (ext in Api.LanguageMap && Api.LanguageMap[ext] in {"css", "scss"})
  {
  }

  // ---------------------------------------------------------------------------
  // The create dialog
  // ---------------------------------------------------------------------------

  class CreateDialog {
    /** the text typed into the dialog */
    var newFileName: string
    var showCreateDialog: bool

    constructor ()
      ensures newFileName == "" && !showCreateDialog
    {
      newFileName := "";
      showCreateDialog := false;
    }

    /**
     * `handleCreate`: a name that is not blank is passed on trimmed (returned in `created`),
     * and the input is cleared and the dialog closed; a blank name changes nothing.
     */
    method HandleCreate() returns (created: Option<string>)
      modifies this
      ensures Trim(old(newFileName)) != "" ==>
                created == Some(Trim(old(newFileName))) && newFileName == "" && !showCreateDialog
      ensures Trim(old(newFileName)) == "" ==>
                created == None && newFileName == old(newFileName) && showCreateDialog == old(showCreateDialog)
    {
      created := None;
      if Trim(newFileName) != "" {
        created := Some(Trim(newFileName));
        newFileName := "";
        showCreateDialog := false;
      }
    }
  }

  /**
   * What the dialog passes on is never blank and has no whitespace at either end, and it is
   * passed on exactly when the typed text is not all whitespace.
   */
  lemma CreatedNameIsTrimmed(typed: string)
    ensures Trim(typed) != "" <==> !IsBlank(typed)
    ensures Trim(typed) != "" ==> !IsJsWhitespace(Trim(typed)[0]) && !IsJsWhitespace(Last(Trim(typed)))
  {
    TrimIsEmptyIffBlank(typed);
  }

  // ---------------------------------------------------------------------------
  // The listed files
  // ---------------------------------------------------------------------------

  datatype FileRow = FileRow(filename: string, icon: FileIcon, active: bool)

  predicate IsFileEntry(e: (string, FileSystemNode)) {
    e.1.kind == Some(File)
  }

  /** Some entry of `files` is a file stored under `name`. */
  predicate HasFileEntry(files: FileSystem, name: string) {
    exists i :: 0 <= i < |files| && files[i].0 == name && IsFileEntry(files[i])
  }

  lemma HasFileEntryInTail(files: FileSystem, name: string)
    requires |files| > 0 && HasFileEntry(files[1..], name)
    ensures HasFileEntry(files, name)
  {
    var i :| 0 <= i < |files[1..]| && files[1..][i].0 == name && IsFileEntry(files[1..][i]);
    assert files[i + 1] == files[1..][i];
  }

  /**
   * The rows of `Object.entries(files)`: one per entry whose node is a file (folders and
   * nodes without `type` are skipped), in entry order, highlighted iff its name is the
   * current file.
   */
  function ListedFiles(files: FileSystem, currentFile: string): (rows: seq<FileRow>)
    ensures |rows| <= |files|
    ensures forall j :: 0 <= j < |rows| ==> rows[j] == Row(rows[j].filename, currentFile)
  {
    if files == [] then []
    else
      var rest := ListedFiles(files[1..], currentFile);
      var name := files[0].0;
      if IsFileEntry(files[0]) then [Row(name, currentFile)] + rest
      else rest
  }

  /** The row of one file: its icon, highlighted iff it is the current file. */
  function Row(filename: string, currentFile: string): FileRow {
    FileRow(filename, GetFileIcon(filename), filename == currentFile)
  }

  /** Every listed row names an entry of the file system that is a file. */
  lemma {:induction false} ListedRowsAreFiles(files: FileSystem, currentFile: string)
    ensures forall j :: 0 <= j < |ListedFiles(files, currentFile)| ==>
              HasFileEntry(files, ListedFiles(files, currentFile)[j].filename)
    decreases |files|
  {
    if files != [] {
      var rows := ListedFiles(files, currentFile);
      var rest := ListedFiles(files[1..], currentFile);
      ListedRowsAreFiles(files[1..], currentFile);
      ListedFilesCons(files, currentFile);
      forall j | 0 <= j < |rows| ensures HasFileEntry(files, rows[j].filename) {
        if IsFileEntry(files[0]) && j == 0 {
          assert files[0].0 == rows[0].filename;
        } else {
          var k := if IsFileEntry(files[0]) then j - 1 else j;
          assert rows[j] == rest[k];
          HasFileEntryInTail(files, rest[k].filename);
        }
      }
    }
  }

  /** The first entry contributes its row, if it is a file, ahead of the rows of the others. */
  lemma ListedFilesCons(files: FileSystem, currentFile: string)
    requires |files| > 0
    ensures IsFileEntry(files[0]) ==>
              && |ListedFiles(files, currentFile)| > 0
              && ListedFiles(files, currentFile)[0].filename == files[0].0
              && ListedFiles(files, currentFile)[1..] == ListedFiles(files[1..], currentFile)
    ensures !IsFileEntry(files[0]) ==> ListedFiles(files, currentFile) == ListedFiles(files[1..], currentFile)
  {
  }

  /** Every file entry is listed. */
  lemma {:induction false} EveryFileListed(files: FileSystem, currentFile: string, i: nat)
    requires i < |files| && IsFileEntry(files[i])
    ensures exists j :: 0 <= j < |ListedFiles(files, currentFile)| && ListedFiles(files, currentFile)[j].filename == files[i].0
    decreases i
  {
    var rows := ListedFiles(files, currentFile);
    ListedFilesCons(files, currentFile);
    if i == 0 {
      assert rows[0].filename == files[0].0;
    } else {
      EveryFileListed(files[1..], currentFile, i - 1);
      var rest := ListedFiles(files[1..], currentFile);
      var j :| 0 <= j < |rest| && rest[j].filename == files[1..][i - 1].0;
      if IsFileEntry(files[0]) {
        assert rows[j + 1] == rest[j];
      } else {
        assert rows[j] == rest[j];
      }
    }
  }

  /** With unique keys no name is listed twice, so at most one row is highlighted. */
  lemma {:induction false} AtMostOneActive(files: FileSystem, currentFile: string)
    requires Records.UniqueKeys(files)
    ensures forall j, k :: 0 <= j < k < |ListedFiles(files, currentFile)| ==>
              ListedFiles(files, currentFile)[j].filename != ListedFiles(files, currentFile)[k].filename
    ensures forall j, k :: (0 <= j < |ListedFiles(files, currentFile)| && 0 <= k < |ListedFiles(files, currentFile)|
                            && ListedFiles(files, currentFile)[j].active && ListedFiles(files, currentFile)[k].active) ==> j == k
    decreases |files|
  {
    if files != [] {
      var rows := ListedFiles(files, currentFile);
      var rest := ListedFiles(files[1..], currentFile);
      assert Records.UniqueKeys(files[1..]);
      AtMostOneActive(files[1..], currentFile);
      ListedFilesCons(files, currentFile);
      ListedRowsAreFiles(files[1..], currentFile);
      if IsFileEntry(files[0]) {
        forall k | 0 <= k < |rest| ensures rest[k].filename != files[0].0 {
          assert HasFileEntry(files[1..], rest[k].filename);
          var i :| 0 <= i < |files[1..]| && files[1..][i].0 == rest[k].filename && IsFileEntry(files[1..][i]);
          assert files[i + 1].0 == rest[k].filename;
        }
        assert rows == [rows[0]] + rest;
      }
    }
  }
}
