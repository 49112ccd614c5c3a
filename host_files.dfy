/**
 * The part of System.IO the core touches: the working directory as a map
 * from file name to contents, plus which names cannot be opened for
 * reading, which cannot be opened for writing, and which carry the
 * executable permission bit.
 */
module HostFiles {
  import opened Wrappers

  newtype byte = b: int | 0 <= b < 256

  /** What the process sees of its working directory. */
  datatype Files = Files(
    contents: map<string, seq<byte>>,  // every existing file and its bytes
    unreadable: set<string>,           // names File.OpenRead fails on (permissions, sharing)
    unwritable: set<string>,           // names File.Create fails on (permissions, sharing)
    executable: set<string>)           // names carrying the execute bit

  /** Only an existing file carries the execute bit. */
  predicate WellFormed(fs: Files)
  {
    fs.executable <= fs.contents.Keys
  }

  /** The IOExceptions the core can meet. */
  datatype IoError = FileNotFound(path: string) | AccessDenied(path: string)

  /**
   * What the running process shares with everything in it: its working
   * directory, the host's directory separator, and the loader library
   * embedded in its own assembly.
   */
  class Host {
    var fs: Files
    const separator: char       // Path.DirectorySeparatorChar
    const resource: seq<byte>   // the embedded macos_doorstop.dylib

    constructor (fs: Files, separator: char, resource: seq<byte>)
      ensures this.fs == fs && this.separator == separator && this.resource == resource
    {
      this.fs := fs;
      this.separator := separator;
      this.resource := resource;
    }
  }

  /**
   * File.Create(path) followed by copying bytes into the new stream: the file
   * is created or truncated and then holds exactly those bytes. Opening fails
   * on an unwritable name, existing or not, and then nothing changes.
   */
  function CreateFile(fs: Files, path: string, bytes: seq<byte>): (r: Result<Files, IoError>)
    ensures r.Failure? <==> path in fs.unwritable
    ensures r.Failure? ==> r.error == AccessDenied(path)
    ensures r.Success? ==> path in r.value.contents && r.value.contents[path] == bytes
    ensures r.Success? ==> forall p :: p != path ==>
      (p in r.value.contents <==> p in fs.contents) &&
      (p in fs.contents ==> r.value.contents[p] == fs.contents[p])
    ensures r.Success? ==> r.value.unreadable == fs.unreadable && r.value.unwritable == fs.unwritable
    ensures r.Success? ==> r.value.executable == fs.executable
    ensures r.Success? && WellFormed(fs) ==> WellFormed(r.value) && (path !in fs.contents ==> path !in r.value.executable)
  {
    if path in fs.unwritable then Failure(AccessDenied(path))
    else Success(fs.(contents := fs.contents[path := bytes]))
  }
}
