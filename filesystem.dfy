/**
 * The part of the local file system the plugin touches: files named by their
 * full path, each with a modification time and its bytes.
 */
module FileSystem {

  newtype byte = x: int | 0 <= x < 256

  type Blob = seq<byte>

  /** A full path as a string (`str(Path)`); `Join` is `os.path.join` / the `/` operator. */
  type Path = string

  function Join(dir: Path, name: string): Path {
    dir + "/" + name
  }

  datatype FileInfo = FileInfo(mtime: real, content: Blob)

  /** The files on disk; every operation below is one system call. */
  class Disk {
    var files: map<Path, FileInfo>

    constructor (initial: map<Path, FileInfo>)
      ensures files == initial
    {
      files := initial;
    }

    /** `open(p, "wb")` followed by writes: creates or truncates `p`. */
    method Write(p: Path, info: FileInfo)
      modifies this
      ensures files == old(files)[p := info]
    {
      files := files[p := info];
    }

    /** `if os.path.exists(p): os.remove(p)`, with a failed removal swallowed. */
    method RemoveIfExists(p: Path)
      modifies this
      ensures files == old(files) - {p}
    {
      files := files - {p};
    }

    /** `os.replace(src, dst)`: an atomic rename that overwrites `dst`. */
    method Replace(src: Path, dst: Path)
      requires src in files
      modifies this
      ensures files == (old(files) - {src})[dst := old(files)[src]]
    {
      files := (files - {src})[dst := files[src]];
    }
  }
}
