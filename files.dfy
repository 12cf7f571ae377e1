/**
 * The file system as the extension sees it through `fs/promises`: a map from path to
 * contents. A path exists exactly when it is a key.
 */
module Files {

  class FileSystem {
    var files: map<string, string>

    constructor (initial: map<string, string>)
      ensures files == initial
    {
      files := initial;
    }

    /** `doesFileExist`, `fs.access` and `fs.stat` succeed exactly on present paths. */
    predicate Exists(path: string)
      reads this
    {
      path in files
    }

    /** `fs.writeFile(path, content)`: creates or replaces the file. */
    method WriteFile(path: string, content: string)
      modifies this
      ensures files == old(files)[path := content]
    {
      files := files[path := content];
    }

    /**
     * `fs.rename(from, to)`: moves the contents of `from` to `to`, replacing what `to` held.
     * A missing `from` fails and changes nothing.
     */
    method Rename(from: string, to: string) returns (ok: bool)
      modifies this
      ensures ok <==> from in old(files)
      ensures ok ==> files == (old(files) - {from})[to := old(files)[from]]
      ensures !ok ==> files == old(files)
    {
      if from in files {
        files := (files - {from})[to := files[from]];
        ok := true;
      } else {
        ok := false;
      }
    }
  }
}
