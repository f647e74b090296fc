/** The slice of the filesystem the filesystem-backed stores use: files under the base
    directory, keyed by their path relative to it, each either holding a stored record or
    failing to read with an error code other than `ENOENT`. */
module FileSystem {
  import opened Wrappers
  import opened Strings

  datatype Entry<T> = Stored(value: T) | Unreadable(code: string)

  /** `fs.promises.readFile` then `JSON.parse`, with the stores' error handling: a missing file
      is `undefined`, any other error propagates. */
  function ReadFile<T>(files: map<string, Entry<T>>, path: string): (r: Result<Option<T>>)
    ensures path !in files <==> r == Ok(None)
    ensures r.Err? <==> path in files && files[path].Unreadable?
    ensures r.Ok? && r.value.Some? ==> files[path] == Stored(r.value.value)
  {
    if path !in files then Ok(None)
    else match files[path]
      case Stored(v) => Ok(Some(v))
      case Unreadable(code) => Err(code)
  }

  /** The names `fs.promises.readdir` lists in a directory: the files directly inside it. */
  function Listing<T>(files: map<string, Entry<T>>, dir: string): (names: set<string>)
    ensures forall n :: n in names <==> dir + n in files && Free(n, '/')
  {
    var names := set p | p in files && StartsWith(p, dir) && Free(p[|dir|..], '/') :: p[|dir|..];
    assert forall n :: dir + n in files && Free(n, '/') ==> n in names by {
      forall n | dir + n in files && Free(n, '/') ensures n in names {
        var p := dir + n;
        assert StartsWith(p, dir) && p[|dir|..] == n;
      }
    }
    assert forall n :: n in names ==> dir + n in files by {
      forall n | n in names ensures dir + n in files {
        var p :| p in files && StartsWith(p, dir) && Free(p[|dir|..], '/') && p[|dir|..] == n;
        assert p == p[..|dir|] + p[|dir|..];
      }
    }
    names
  }
}
