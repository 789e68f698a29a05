/** The errors the backend returns or passes through, with the text `err.Error()` gives. */
module Errors {

  datatype Error =
    | ObjectNotFound                        // fs.ErrorObjectNotFound
    | DirNotFound                           // fs.ErrorDirNotFound
    | IsDir                                 // fs.ErrorIsDir
    | Remote(description: string)           // an error of the HTTP layer, opaque here
    | Message(text: string)                 // errors.New(text)
    | Wrapped(prefix: string, cause: Error) // fmt.Errorf(prefix + "%w", cause)

  /** The message of an error, as Go's `Error()` method renders it. */
  function Text(e: Error): string
  {
    match e
    case ObjectNotFound => "object not found"
    case DirNotFound => "directory not found"
    case IsDir => "is a directory not a file"
    case Remote(d) => d
    case Message(t) => t
    case Wrapped(p, c) => p + Text(c)
  }
}
