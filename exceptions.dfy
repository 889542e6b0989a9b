/** The .NET exceptions that the evidence pipeline and the scoring engine raise. */
module Exceptions {
  import opened Wrappers

  datatype Exception =
    | FileNotFound(message: string, fileName: Option<string>)  // FileNotFoundException
    | DirectoryNotFound(message: string)                       // DirectoryNotFoundException
    | InvalidOperation(message: string)                        // InvalidOperationException
    | Json(message: string)                                    // JsonException from the deserialiser
    | Overflow                                                 // OverflowException from checked arithmetic
    | IO(message: string)                                      // IOException
    | Argument(message: string, paramName: string)             // ArgumentException

  /**
   * The sharing violation `File.Create` raises for a file that is open for reading: the copy
   * helpers open the source with `FileShare.Read` and then create the destination with
   * `FileShare.None`, so a copy of a file onto itself fails.
   */
  /** What `Directory.CreateDirectory` raises for an empty path, before touching the disk. */
  function EmptyPath(paramName: string): Exception
  {
    Argument("The value cannot be an empty string.", paramName)
  }

  function FileInUse(path: string): Exception
  {
    IO("The process cannot access the file '" + path + "' because it is being used by another process.")
  }
}
