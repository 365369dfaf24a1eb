/**
 * The part of the file system the C++ loggers touch: directories that exist and text
 * files that are appended to. Which paths cannot be created or opened is fixed by the
 * caller, standing in for permissions and device errors.
 */
module Disk {
  class Disk {
    var dirs: set<string>
    var files: map<string, string>
    /** Paths whose creation or opening fails. */
    const unwritable: set<string>

    constructor(dirs: set<string>, files: map<string, string>, unwritable: set<string>)
      ensures this.dirs == dirs && this.files == files && this.unwritable == unwritable
    {
      this.dirs := dirs;
      this.files := files;
      this.unwritable := unwritable;
    }

    /** The text of `path`; a missing file reads as empty, as appending to it starts from nothing. */
    function Contents(path: string): string
      reads this
    {
      if path in files then files[path] else ""
    }

    /**
     * `std::filesystem::create_directory(d)` without an error code, on a directory that does
     * not exist yet: that overload reports a failure by throwing `filesystem_error`, so the
     * result says whether it threw. It returns false only for a directory that already
     * exists, which its caller has ruled out.
     */
    method CreateDirectory(d: string) returns (threw: bool)
      modifies this
      ensures threw <==> d in unwritable
      ensures dirs == if threw then old(dirs) else old(dirs) + {d}
      ensures files == old(files)
    {
      threw := d in unwritable;
      if !threw {
        dirs := dirs + {d};
      }
    }

    /** Opening `path` for appending, writing `text` and closing it. */
    method Append(path: string, text: string) returns (ok: bool)
      modifies this
      ensures ok <==> path !in unwritable
      ensures files == if ok then old(files)[path := old(Contents(path)) + text] else old(files)
      ensures dirs == old(dirs)
    {
      ok := path !in unwritable;
      if ok {
        files := files[path := Contents(path) + text];
      }
    }
  }
}
