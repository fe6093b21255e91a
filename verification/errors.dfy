/** The errors the two services reject with. */
module Errors {

  /** Every rejection the model can produce.  `Remote` stands for whatever the
      Figma client rejects with; the services hand it on untouched.  `TypeError`
      stands for a JavaScript runtime error raised by the code itself. */
  datatype Error =
    | FileKeyRequired
    | NodeIdsRequired
    | AccessTokenNotConfigured
    | Remote(detail: string)
    | TypeError(detail: string)
  {
    /** The `message` of the thrown `Error` object. */
    function Message(): string {
      match this
      case FileKeyRequired => "File key is required"
      case NodeIdsRequired => "Node IDs are required"
      case AccessTokenNotConfigured => "Figma access token is not configured"
      case Remote(d) => d
      case TypeError(d) => d
    }
  }
}
