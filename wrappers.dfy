/** The Option and Result datatypes shared by the model. */
module Wrappers {

  /** A value that may be absent, as `os.environ.get` returns it. */
  datatype Option<+T> = None | Some(value: T)

  /** Either a value or the error the source raises or exits with. */
  datatype Result<+R, +E> = Success(value: R) | Failure(error: E)
}

/** The `FileExistsError` both validators raise for a missing local file. */
module FileErrors {

  datatype FileError = FileMissing(path: string)
  {
    /**
     * The exception message, `File: <path> does not exist!`: the path sits
     * between a fixed prefix and a fixed suffix, so it can be read back.
     */
    function Message(): (m: string)
      ensures |m| == |"File: "| + |path| + |" does not exist!"|
      ensures m[..|"File: "|] == "File: "
      ensures m[|"File: "|..|m| - |" does not exist!"|] == path
      ensures m[|m| - |" does not exist!"|..] == " does not exist!"
    {
      "File: " + path + " does not exist!"
    }
  }
}
